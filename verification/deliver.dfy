// The handlers that deliver bytes, as steps of pacing.dfy: what Pacing.Paced says of its
// runs, it says of the commands' delays, timestamps, open ttys and deliveries on the heap.
module Deliveries {
  import opened Text
  import opened Ttys
  import opened Cmds
  import opened Wires
  import Main
  import L = Lifecycle
  import P = Pacing

  predicate LaneIs(l: P.Lane, delay: real, sent: Sending) {
    && l.delay == delay && l.last == sent.last && l.open == (sent.opens != 0)
    && |l.log| == |sent.log| && forall i | 0 <= i < |l.log| :: l.log[i].d == sent.log[i]
  }

  ghost function Delays(g: Globals): map<string, real>
    reads g`cmds
  {
    map n | n in g.cmds :: g.cmds[n].delay
  }

  // The pacing state p describes these commands.
  ghost predicate Lanes(p: P.State, delays: map<string, real>, sents: map<string, Sending>) {
    && p.lanes.Keys == delays.Keys == sents.Keys
    && forall n | n in sents :: LaneIs(p.lanes[n], delays[n], sents[n])
  }

  ghost predicate SlowestIs(g: Globals, p: P.State)
    reads g`cmds, g`slowestcmd
  {
    match p.slowest
    case None => g.slowestcmd == null
    case Some(n) => n in g.cmds && g.cmds[n] == g.slowestcmd
  }

  ghost predicate Matches(g: Globals, p: P.State)
    reads g`cmds, g`slowestcmd, set n | n in g.cmds :: g.cmds[n], set n | n in g.cmds :: g.cmds[n].cmdtty
  {
    Lanes(p, Delays(g), g.Sents()) && SlowestIs(g, p)
  }

  // A broadcast byte for every lane.
  lemma LanesBcst(g: Globals, p: P.State, now: real, blocked: bool, c: Option<char>)
    requires Matches(g, p) && g.slowestcmd != null
    requires c.Some? <==> !blocked && Due(g.slowestcmd.lastwrite, g.slowestcmd.delay, now)
    ensures var t := if blocked then p else P.Step(p, P.FromBcst, now);
      && t.slowest == p.slowest
      && Lanes(t, Delays(g), if c.Some? then PlusAll(g.Sents(), [c.value], Delivery(now, Bcst)) else g.Sents())
  {
    assert p.slowest.Some? && g.cmds[p.slowest.value] == g.slowestcmd;
    assert g.Sents()[p.slowest.value].last == g.slowestcmd.lastwrite;
  }

  lemma LanesBcstAll(g: Globals, p: P.State, now: real, blocked: bool)
    requires Matches(g, p) && g.slowestcmd != null
    ensures forall c: Option<char> | c.Some? <==> !blocked && Due(g.slowestcmd.lastwrite, g.slowestcmd.delay, now) ::
      Lanes(if blocked then p else P.Step(p, P.FromBcst, now), Delays(g),
            if c.Some? then PlusAll(g.Sents(), [c.value], Delivery(now, Bcst)) else g.Sents())
    ensures SlowestIs(g, if blocked then p else P.Step(p, P.FromBcst, now))
  {
    forall c: Option<char> | c.Some? <==> !blocked && Due(g.slowestcmd.lastwrite, g.slowestcmd.delay, now)
      ensures Lanes(if blocked then p else P.Step(p, P.FromBcst, now), Delays(g),
                    if c.Some? then PlusAll(g.Sents(), [c.value], Delivery(now, Bcst)) else g.Sents())
    {
      LanesBcst(g, p, now, blocked, c);
    }
    hide Lanes;
  }

  method BcstByte(g: Globals, now: real, ghost objs: set<object>, ghost s: L.State, ghost p: P.State)
    returns (c: Option<char>)
    requires g.Table() && g.Is(s) && L.Listed(s) && g.bcsttty.inq != "" && g.slowestcmd != null
    requires Main.Covers(g, objs)
    requires Matches(g, p)
    modifies objs, g.bcsttty
    ensures Matches(g, if L.BcstBlocked(s) then p else P.Step(p, P.FromBcst, now))
  {
    LanesBcstAll(g, p, now, L.BcstBlocked(s));
    hide *;
    c := Main.BcstttyEvent(g, now, objs, s);
    MatchesFrom(g, if L.BcstBlocked(s) then p else P.Step(p, P.FromBcst, now));
  }

  lemma MatchesFrom(g: Globals, p: P.State)
    requires Lanes(p, Delays(g), g.Sents()) && SlowestIs(g, p)
    ensures Matches(g, p)
  {}

  // The bytes of a stop string, one after the other.
  ghost function StopRun(p: P.State, n: string, k: nat, now: real): P.State {
    if k == 0 then p else P.Step(StopRun(p, n, k - 1, now), P.Stopping(n), now)
  }

  // A byte from the client of n, with the stop string that is sent in the same call.
  ghost function Client(sent: Sending, delay: real, byte: char, stops: string, now: real): Sending {
    if Due(sent.last, delay, now) then sent.Plus([byte], Delivery(now, Kind.Client)).Plus(stops, Delivery(now, StopString))
    else sent
  }

  lemma LanePlus(l: P.Lane, delay: real, sent: Sending, ch: char, w: P.Write)
    requires LaneIs(l, delay, sent)
    ensures LaneIs(P.Put(l, w), delay, sent.Plus([ch], w.d))
  {}

  lemma LanesClient(p: P.State, delays: map<string, real>, sents: map<string, Sending>, n: string, byte: char, now: real)
    requires Lanes(p, delays, sents) && n in sents && Due(sents[n].last, delays[n], now)
    ensures var t := P.Step(p, P.FromClient(n), now);
      t.slowest == p.slowest && Lanes(t, delays, sents[n := sents[n].Plus([byte], Delivery(now, Kind.Client))])
  {
    LanePlus(p.lanes[n], delays[n], sents[n], byte, P.WriteOf(p, Kind.Client, now));
    hide LaneIs, Sending.Plus, P.Put;
  }

  lemma LanesStop(p: P.State, delays: map<string, real>, sents: map<string, Sending>, n: string, ch: char, now: real)
    requires Lanes(p, delays, sents) && n in sents
    ensures var t := P.Step(p, P.Stopping(n), now);
      t.slowest == p.slowest && Lanes(t, delays, sents[n := sents[n].Plus([ch], Delivery(now, StopString))])
  {
    LanePlus(p.lanes[n], delays[n], sents[n], ch, P.WriteOf(p, StopString, now));
    hide LaneIs, Sending.Plus, P.Put;
  }

  lemma {:induction false} LanesStops(p: P.State, delays: map<string, real>, sents: map<string, Sending>, n: string,
                                      text: string, now: real)
    requires Lanes(p, delays, sents) && n in sents
    ensures var t := StopRun(p, n, |text|, now);
      t.slowest == p.slowest && Lanes(t, delays, sents[n := sents[n].Plus(text, Delivery(now, StopString))])
    decreases |text|
  {
    var d := Delivery(now, StopString);
    if text == "" {
      sents[n].PlusNone(d);
      assert sents[n := sents[n]] == sents;
    } else {
      var front, last := text[..|text| - 1], text[|text| - 1];
      LanesStops(p, delays, sents, n, front, now);
      sents[n].PlusTwice(front, [last], d);
      assert front + [last] == text;
      var mid := sents[n := sents[n].Plus(front, d)];
      hide Lanes, P.Step, Sending.Plus;
      LanesStop(StopRun(p, n, |front|, now), delays, mid, n, last, now);
      assert mid[n := mid[n].Plus([last], d)] == sents[n := sents[n].Plus(text, d)];
    }
  }

  // Both together.
  lemma LanesRead(p: P.State, delays: map<string, real>, sents: map<string, Sending>, n: string,
                  byte: char, stops: string, now: real)
    requires Lanes(p, delays, sents) && n in sents
    requires !Due(sents[n].last, delays[n], now) ==> stops == ""
    ensures var t := StopRun(P.Step(p, P.FromClient(n), now), n, |stops|, now);
      t.slowest == p.slowest && Lanes(t, delays, sents[n := Client(sents[n], delays[n], byte, stops, now)])
  {
    if Due(sents[n].last, delays[n], now) {
      LanesClient(p, delays, sents, n, byte, now);
      var mid := sents[n := sents[n].Plus([byte], Delivery(now, Kind.Client))];
      LanesStops(P.Step(p, P.FromClient(n), now), delays, mid, n, stops, now);
      hide Lanes, P.Step, StopRun, Sending.Plus;
      assert mid[n := mid[n].Plus(stops, Delivery(now, StopString))] == sents[n := Client(sents[n], delays[n], byte, stops, now)];
    } else {
      assert sents[n := sents[n]] == sents;
    }
  }

  // No other command's tty is written.
  ghost predicate Separate(g: Globals, c: Cmd)
    reads g`cmds
  {
    && c.name in g.cmds && g.cmds[c.name] == c && c.cmdtty != c.clttty
    && forall m | m in g.cmds && m != c.name ::
         g.cmds[m] != c && g.cmds[m].cmdtty != c.cmdtty && g.cmds[m].cmdtty != c.clttty
  }

  method ClientTo(g: Globals, c: Cmd, now: real, ghost s: L.State)
    requires g.Table() && Separate(g, c) && g.Is(s) && L.Core(s) && c.clttty.inq != ""
    modifies c`pid, c`readycnt, c`life, c`lastwrite, c`log, g`cmdsreadycnt, g`children, c.clttty, c.cmdtty, c.cmdtty.discards
    ensures g.Sents() == old(g.Sents())[c.name := c.Sent()]
    ensures var forwards := L.Forwards(s, c.name, Due(old(c.lastwrite), c.delay, now));
      var stopped := old(c.IsRunning()) && !c.IsRunning();
      if forwards then
        c.Sent() == old(c.Sent()).Plus([old(c.clttty.inq)[0]], Delivery(now, Kind.Client))
                                 .Plus(if stopped then c.StopText(g) else "", Delivery(now, StopString))
      else c.Sent() == old(c.Sent()) && !stopped
  {
    hide Globals.Table, Globals.Is, L.Core, L.Forwards, Sending.Plus, Due, Cmd.StopText, Cmd.Side, Globals.Sides;
    Main.CltttyEvent(g, c, now, s);
  }

  ghost function ClientStep(p: P.State, n: string, ready: bool, k: nat, now: real): P.State {
    if ready then StopRun(P.Step(p, P.FromClient(n), now), n, k, now) else p
  }

  lemma Before(g: Globals, c: Cmd, s: L.State, p: P.State, now: real)
    requires g.Table() && c.name in g.cmds && g.cmds[c.name] == c && g.Is(s) && Matches(g, p)
    ensures Separate(g, c) && c.name in s.cmds && c.name in g.Sents()
    ensures g.Sents()[c.name] == c.Sent() && c.Sent().last == c.lastwrite
    ensures Lanes(p, Delays(g), g.Sents()) && SlowestIs(g, p)
    ensures var due := Due(c.lastwrite, c.delay, now);
      L.Forwards(s, c.name, due) <==> L.IsReady(L.ReadyStr(s), s.cmds[c.name]) && due
  {}

  lemma After(g: Globals, c: Cmd, p: P.State, sents: map<string, Sending>, ready: bool, byte: char, stops: string, now: real)
    requires Lanes(p, Delays(g), sents) && SlowestIs(g, p) && c.name in sents && c.name in g.cmds && g.cmds[c.name] == c
    requires !(ready && Due(sents[c.name].last, c.delay, now)) ==> stops == ""
    requires g.Sents() == sents[c.name :=
      if ready && Due(sents[c.name].last, c.delay, now)
      then sents[c.name].Plus([byte], Delivery(now, Kind.Client)).Plus(stops, Delivery(now, StopString))
      else sents[c.name]]
    ensures Matches(g, ClientStep(p, c.name, ready, |stops|, now))
  {
    assert Delays(g)[c.name] == c.delay;
    hide P.Step, StopRun, Lanes, Globals.Sents, Delays, Sending.Plus;
    if ready {
      LanesRead(p, Delays(g), sents, c.name, byte, stops, now);
    }
    assert sents[c.name := sents[c.name]] == sents;
  }

  // cmdCltttyEvent: nothing when the command is not ready; otherwise the pacing step for
  // its client, followed by the bytes of the stop string exactly if that stopped it.
  method ClientByte(g: Globals, c: Cmd, now: real, ghost s: L.State, ghost p: P.State)
    requires g.Table() && c.name in g.cmds && g.cmds[c.name] == c
    requires g.Is(s) && L.Core(s) && c.clttty.inq != "" && Matches(g, p) && c.name in s.cmds
    modifies c`pid, c`readycnt, c`life, c`lastwrite, c`log, g`cmdsreadycnt, g`children, c.clttty, c.cmdtty, c.cmdtty.discards
    ensures var k := if old(c.IsRunning()) && !c.IsRunning() then |c.StopText(g)| else 0;
      Matches(g, ClientStep(p, c.name, L.IsReady(L.ReadyStr(s), s.cmds[c.name]), k, now))
  {
    hide *;
    Before(g, c, s, p, now);
    ghost var sents, byte := g.Sents(), c.clttty.inq[0];
    ClientTo(g, c, now, s);
    ghost var stops := if old(c.IsRunning()) && !c.IsRunning() then c.StopText(g) else "";
    After(g, c, p, sents, L.IsReady(L.ReadyStr(s), s.cmds[c.name]), byte, stops, now);
  }

  // The new command's share, and its place as the slowest.
  lemma LanesAdd(p: P.State, delays: map<string, real>, sents: map<string, Sending>, n: string, delay: real, now: real)
    requires Lanes(p, delays, sents) && n !in sents && (p.slowest.Some? ==> p.slowest.value in sents)
    ensures var t := P.Step(p, P.Added(n, delay), now);
      && Lanes(t, delays[n := delay], sents[n := Silent])
      && t.slowest == if p.slowest.Some? && delay <= delays[p.slowest.value] then p.slowest else Some(n)
  {}

  // Nobody else's share changes when a command joins the table.
  twostate lemma Joined(g: Globals, new c: Cmd)
    requires g.cmds == old(g.cmds)[c.name := c]
    requires forall n | n in old(g.cmds) :: unchanged(old(g.cmds)[n]) && unchanged(old(g.cmds)[n].cmdtty)
    ensures g.Sents() == old(g.Sents())[c.name := c.Sent()]
    ensures Delays(g) == old(Delays(g))[c.name := c.delay]
  {
    hide Sending.Plus;
  }

  method AddTo(g: Globals, name: string, cmdline: string, stopstr: Option<string>, delay: real, ghost s: L.State)
    returns (c: Cmd)
    requires g.Table() && g.Is(s) && name !in g.cmds
    modifies g`cmds, g`order, g`slowestcmd
    ensures c.name == name && g.cmds == old(g.cmds)[name := c] && Delays(g) == old(Delays(g))[name := delay]
    ensures g.Sents() == old(g.Sents())[name := Silent]
    ensures g.slowestcmd == if old(g.slowestcmd) == null || delay > old(g.slowestcmd).delay then c else old(g.slowestcmd)
  {
    hide *;
    c := Main.AddCmd(g, name, cmdline, stopstr, delay, s);
    Joined(g, c);
  }

  // GBLSAddCmd as the pacing step.
  method Add(g: Globals, name: string, cmdline: string, stopstr: Option<string>, delay: real, now: real,
                 ghost s: L.State, ghost p: P.State)
    returns (c: Cmd)
    requires g.Table() && g.Is(s) && name !in g.cmds && Matches(g, p)
    modifies g`cmds, g`order, g`slowestcmd
    ensures Matches(g, P.Step(p, P.Added(name, delay), now))
  {
    LanesAdd(p, Delays(g), g.Sents(), name, delay, now);
    hide Globals.Table, Globals.Is, Lanes, Globals.Sents, Delays, P.Step, Cmd.Sent;
    c := AddTo(g, name, cmdline, stopstr, delay, s);
    MatchesFrom(g, P.Step(p, P.Added(name, delay), now));
  }
}
