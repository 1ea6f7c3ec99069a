// What the runs of theLoop send, end to end: the bytes of a step, their gating, and their
// pacing, for every script of events.
module Courses {
  import opened Text
  import opened Ttys
  import opened Wires
  import opened Loop
  import D = Deliveries
  import Gating
  import L = Lifecycle
  import P = Pacing
  import Promises
  import Ready

  // The bytes that a step offers to n from a client or the broadcast tty.
  ghost function Input(s: L.State, e: L.Event, n: string): string
    requires L.Enabled(s, e)
  {
    if n !in Gating.Writes(s, e) then ""
    else if e.CltEvent? then [s.cmds[n].clt.inq[0]]
    else if e.BcstEvent? then [s.bcst.inq[0]]
    else ""
  }

  // Everything a step offers to a command that stays: the byte that was waiting, if its
  // gate is open, and the stop string, if it stops the process.
  lemma Offered(w: Wire, s: L.State, e: L.Event, spec: Request, now: real, n: string)
    requires L.Enabled(s, e) && w.sents.Keys == w.specs.Keys == s.cmds.Keys
    requires n in w.sents && n in Wires.Step(w, s, e, spec, now).sents
    ensures var stops := (e.CltClose? || e.CltEvent? || e.BcstClose?) && Halted(s, L.Step(s, e), n);
      Wires.Step(w, s, e, spec, now).sents[n].offered ==
      w.sents[n].offered + Input(s, e, n) + if stops then StopText(w.specs[n].stopstr, w.stopstr) else ""
  {
    hide L.Step;
    NoMore(w.sents[n].offered);
    match e
    case CltEvent(m, due) =>
      if m != n || !L.Forwards(s, m, due) { NotHalted(s, e, n); }
      NoMore(w.sents[n].offered + Input(s, e, n));
    case CltClose(_) =>
    case BcstClose =>
    case BcstEvent(_) => NoMore(w.sents[n].offered + Input(s, e, n));
    case Add(m, _) =>
    case _ =>
  }

  lemma NoMore(a: string)
    ensures a + "" == a
  {}

  lemma NotHalted(s: L.State, e: L.Event, n: string)
    requires L.Enabled(s, e) && e.CltEvent? && (e.name != n || !L.Forwards(s, e.name, e.due))
    ensures !Halted(s, L.Step(s, e), n)
  {}

  // ---- Gating, over what is sent ----

  // In every run that matches no stale byte, whatever is offered to a command beside its
  // stop string goes to a running process that has itself written the ready string.
  lemma GatedRun(x: World, script: seq<Item>, i: Item, n: string)
    requires L.Init(x.life) && L.ReadyStr(x.life) != ""
    requires Gating.NoStaleMatch(x.life, (CourseRun(x, script); Events(x, script)))
    requires Happens(Course(x, script), i) && Input(Course(x, script).life, Met(Course(x, script), i), n) != ""
    ensures var t := Course(x, script).life;
      && n in t.cmds && L.Running(t.cmds[n])
      && Ready.Occurs(L.ReadyStr(x.life), Gating.Own(t.cmds[n].seen, |t.cmds[n].life|))
  {
    CourseRun(x, script);
    var t, e := Course(x, script).life, Met(Course(x, script), i);
    assert n in Gating.Writes(t, e);
    Gating.Gated(x.life, Events(x, script), e, n);
  }

  // ---- Pacing ----

  ghost function SpecDelays(w: Wire): map<string, real> {
    map n | n in w.specs :: w.specs[n].delay
  }

  // The pacing state p describes what has been sent; the slowest command is in the table.
  ghost predicate PaceIs(p: P.State, w: Wire) {
    && D.Lanes(p, SpecDelays(w), w.sents) && w.specs.Keys == w.sents.Keys
    && match w.slow
       case None => p.slowest == None
       case Some(x) => x.listed && p.slowest == Some(x.name) && x.name in w.specs && w.specs[x.name].delay == x.delay
  }

  // The step removes no command.
  ghost predicate Keeps(s: L.State, e: L.Event) {
    !e.Del? && !e.Terminate? && (e.Exit? && e.name in s.cmds ==> !s.cmds[e.name].deleteonexit)
  }

  lemma {:induction false} RunConcat(p: P.State, a: seq<(P.Event, real)>, q: P.State, b: seq<(P.Event, real)>, u: P.State)
    requires P.Run(p, a, q) && P.Run(q, b, u)
    ensures P.Run(p, a + b, u)
    decreases |a|
  {
    if a == [] {
      assert a + b == b;
    } else {
      assert (a + b)[0] == a[0] && (a + b)[1..] == a[1..] + b;
      RunConcat(P.Step(p, a[0].0, a[0].1), a[1..], q, b, u);
    }
  }

  lemma RunOne(p: P.State, e: P.Event, now: real)
    requires p.clock <= now
    ensures P.Run(p, [(e, now)], P.Step(p, e, now)) && P.Step(p, e, now).clock == now
  {
    assert [(e, now)][1..] == [];
  }

  lemma RunNone(p: P.State)
    ensures P.Run(p, [], p)
  {}

  // The bytes of a stop string.
  lemma {:induction false} StopTextRun(p: P.State, n: string, k: nat, now: real) returns (es: seq<(P.Event, real)>)
    requires p.clock <= now
    ensures P.Run(p, es, D.StopRun(p, n, k, now)) && D.StopRun(p, n, k, now).clock <= now
    decreases k
  {
    if k == 0 {
      es := [];
    } else {
      var front := StopTextRun(p, n, k - 1, now);
      var q := D.StopRun(p, n, k - 1, now);
      RunOne(q, P.Stopping(n), now);
      RunConcat(p, front, q, [(P.Stopping(n), now)], P.Step(q, P.Stopping(n), now));
      es := front + [(P.Stopping(n), now)];
    }
  }

  ghost function Told(sents: map<string, Sending>, texts: map<string, string>, hs: set<string>, now: real): map<string, Sending> {
    map n | n in sents :: if n in texts && n in hs then sents[n].Plus(texts[n], Delivery(now, StopString)) else sents[n]
  }

  // The stop strings of any number of commands.
  lemma {:induction false} StopsRun(p: P.State, delays: map<string, real>, sents: map<string, Sending>, texts: map<string, string>,
                                    hs: set<string>, now: real)
    returns (es: seq<(P.Event, real)>, q: P.State)
    requires D.Lanes(p, delays, sents) && p.clock <= now && sents.Keys == texts.Keys
    ensures P.Run(p, es, q) && q.clock <= now && q.slowest == p.slowest && D.Lanes(q, delays, Told(sents, texts, hs, now))
    decreases |hs|
  {
    hide *;
    if hs == {} {
      ToldNone(sents, texts, now);
      RunNone(p);
      es, q := [], p;
    } else {
      var n :| n in hs;
      var front, mid := StopsRun(p, delays, sents, texts, hs - {n}, now);
      var before := Told(sents, texts, hs - {n}, now);
      ToldMore(sents, texts, hs, n, now);
      if n in sents {
        D.LanesStops(mid, delays, before, n, texts[n], now);
        var more := StopTextRun(mid, n, |texts[n]|, now);
        q := D.StopRun(mid, n, |texts[n]|, now);
        RunConcat(p, front, mid, more, q);
        es := front + more;
      } else {
        es, q := front, mid;
      }
    }
  }

  lemma ToldNone(sents: map<string, Sending>, texts: map<string, string>, now: real)
    ensures Told(sents, texts, {}, now) == sents
  {}

  lemma ToldMore(sents: map<string, Sending>, texts: map<string, string>, hs: set<string>, n: string, now: real)
    requires n in hs && sents.Keys == texts.Keys
    ensures var before := Told(sents, texts, hs - {n}, now);
      && before.Keys == sents.Keys
      && Told(sents, texts, hs, now) ==
         if n in sents then before[n := before[n].Plus(texts[n], Delivery(now, StopString))] else before
  {
    hide Sending.Plus;
  }

  // The stop strings of a step.
  lemma HaltsRun(p: P.State, w: Wire, sents: map<string, Sending>, s: L.State, t: L.State, now: real)
    returns (es: seq<(P.Event, real)>, q: P.State)
    requires D.Lanes(p, SpecDelays(w), sents) && p.clock <= now && w.specs.Keys == sents.Keys
    ensures P.Run(p, es, q) && q.clock <= now && q.slowest == p.slowest
    ensures D.Lanes(q, SpecDelays(w), StopSents(sents, w.Texts(), s, t, now))
  {
    var hs := set n | n in sents && Halted(s, t, n);
    assert Told(sents, w.Texts(), hs, now) == StopSents(sents, w.Texts(), s, t, now) by { hide Sending.Plus, Halted; }
    assert w.Texts().Keys == w.specs.Keys;
    hide *;
    es, q := StopsRun(p, SpecDelays(w), sents, w.Texts(), hs, now);
  }

  // A client byte, and the stop string it may bring about.
  lemma ClientRun(p: P.State, w: Wire, s: L.State, n: string, due: bool, spec: Request, now: real)
    returns (es: seq<(P.Event, real)>, q: P.State)
    requires PaceIs(p, w) && p.clock <= now && w.sents.Keys == s.cmds.Keys
    requires L.Enabled(s, L.CltEvent(n, due)) && due == DueAt(w, L.CltEvent(n, due), now)
    ensures P.Run(p, es, q) && q.clock <= now && PaceIs(q, Wires.Step(w, s, L.CltEvent(n, due), spec, now))
  {
    if L.Forwards(s, n, due) {
      var c := s.cmds[n].clt.inq[0];
      D.LanesClient(p, SpecDelays(w), w.sents, n, c, now);
      RunOne(p, P.FromClient(n), now);
      var mid := P.Step(p, P.FromClient(n), now);
      var sents := w.sents[n := w.sents[n].Plus([c], Delivery(now, Client))];
      var t := L.Step(s, L.CltEvent(n, due));
      var more;
      more, q := HaltsRun(mid, w, sents, s, t, now);
      RunConcat(p, [(P.FromClient(n), now)], mid, more, q);
      es := [(P.FromClient(n), now)] + more;
      hide D.Lanes, L.Step, P.Step, P.Run, Sending.Plus, StopSents;
    } else {
      RunNone(p);
      es, q := [], p;
    }
  }

  lemma StoppingRun(p: P.State, w: Wire, s: L.State, e: L.Event, spec: Request, now: real)
    returns (es: seq<(P.Event, real)>, q: P.State)
    requires PaceIs(p, w) && p.clock <= now && w.sents.Keys == s.cmds.Keys
    requires L.Enabled(s, e) && (e.CltClose? || e.BcstClose?)
    ensures P.Run(p, es, q) && q.clock <= now && PaceIs(q, Wires.Step(w, s, e, spec, now))
  {
    es, q := HaltsRun(p, w, w.sents, s, L.Step(s, e), now);
    hide D.Lanes, L.Step, P.Run, StopSents;
  }

  lemma BroadcastRun(p: P.State, w: Wire, s: L.State, due: bool, spec: Request, now: real)
    returns (es: seq<(P.Event, real)>, q: P.State)
    requires PaceIs(p, w) && p.clock <= now && w.sents.Keys == s.cmds.Keys && w.slow.Some?
    requires L.Enabled(s, L.BcstEvent(due)) && due == DueAt(w, L.BcstEvent(due), now)
    ensures P.Run(p, es, q) && q.clock <= now && PaceIs(q, Wires.Step(w, s, L.BcstEvent(due), spec, now))
  {
    if L.BcstBlocked(s) || !due {
      RunNone(p);
      es, q := [], p;
    } else {
      RunOne(p, P.FromBcst, now);
      es, q := [(P.FromBcst, now)], P.Step(p, P.FromBcst, now);
      assert w.sents[w.slow.value.name].last == p.lanes[w.slow.value.name].last;
    }
  }

  lemma AddRun(p: P.State, w: Wire, s: L.State, n: string, pid: int, spec: Request, now: real)
    returns (es: seq<(P.Event, real)>, q: P.State)
    requires PaceIs(p, w) && p.clock <= now && w.sents.Keys == s.cmds.Keys && L.Enabled(s, L.Add(n, pid))
    ensures P.Run(p, es, q) && q.clock <= now && PaceIs(q, Wires.Step(w, s, L.Add(n, pid), spec, now))
  {
    if n in s.cmds {
      RunNone(p);
      es, q := [], p;
    } else {
      D.LanesAdd(p, SpecDelays(w), w.sents, n, spec.delay, now);
      RunOne(p, P.Added(n, spec.delay), now);
      es, q := [(P.Added(n, spec.delay), now)], P.Step(p, P.Added(n, spec.delay), now);
      var t := Wires.Step(w, s, L.Add(n, pid), spec, now);
      assert t.specs == w.specs[n := spec] && t.sents == w.sents[n := Silent];
      hide D.Lanes, P.Step, P.Run, L.Enabled, Wires.Step;
      assert SpecDelays(t) == SpecDelays(w)[n := spec.delay];
    }
  }

  lemma NotifyRun(p: P.State, w: Wire, s: L.State, n: string, isOpen: bool, spec: Request, now: real)
    returns (es: seq<(P.Event, real)>, q: P.State)
    requires PaceIs(p, w) && p.clock <= now && w.sents.Keys == s.cmds.Keys && L.Enabled(s, L.CmdNotify(n, isOpen))
    ensures P.Run(p, es, q) && q.clock <= now && PaceIs(q, Wires.Step(w, s, L.CmdNotify(n, isOpen), spec, now))
  {
    var o := P.Opened(n, w.sents[n].Notified(isOpen).opens != 0);
    RunOne(p, o, now);
    es, q := [(o, now)], P.Step(p, o, now);
  }

  lemma OtherRun(w: Wire, s: L.State, e: L.Event, spec: Request, now: real)
    requires L.Enabled(s, e) && Keeps(s, e)
    requires !e.CltEvent? && !e.CltClose? && !e.BcstClose? && !e.BcstEvent? && !e.Add? && !e.CmdNotify?
    ensures Wires.Step(w, s, e, spec, now) == w
  {}

  // Every step that removes nothing is a run of the pacing model.
  lemma StepRun(p: P.State, w: Wire, s: L.State, e: L.Event, spec: Request, now: real)
    returns (es: seq<(P.Event, real)>, q: P.State)
    requires PaceIs(p, w) && p.clock <= now && w.sents.Keys == s.cmds.Keys
    requires L.Enabled(s, e) && Keeps(s, e) && (e.BcstEvent? ==> w.slow.Some?)
    requires e.CltEvent? || e.BcstEvent? ==> e.due == DueAt(w, e, now)
    ensures P.Run(p, es, q) && q.clock <= now && PaceIs(q, Wires.Step(w, s, e, spec, now))
  {
    hide *;
    if e.CltEvent? { es, q := ClientRun(p, w, s, e.name, e.due, spec, now); }
    else if e.CltClose? || e.BcstClose? { es, q := StoppingRun(p, w, s, e, spec, now); }
    else if e.BcstEvent? { es, q := BroadcastRun(p, w, s, e.due, spec, now); }
    else if e.Add? { es, q := AddRun(p, w, s, e.name, e.pid, spec, now); }
    else if e.CmdNotify? { es, q := NotifyRun(p, w, s, e.name, e.isOpen, spec, now); }
    else {
      OtherRun(w, s, e, spec, now);
      RunNone(p);
      es, q := [], p;
    }
  }

  lemma KeysKept(w: Wire, s: L.State, e: L.Event, spec: Request, now: real)
    requires L.Enabled(s, e) && L.Listed(s) && Keeps(s, e) && w.sents.Keys == s.cmds.Keys
    ensures Wires.Step(w, s, e, spec, now).sents.Keys == L.Step(s, e).cmds.Keys
  {
    Promises.StepEffect(s, e);
    LifeKeys(s, e, L.Step(s, e));
    WireKeys(w, s, e, spec, now);
    hide L.Step, Wires.Step, Promises.Effect, Keeps;
  }

  lemma LifeKeys(s: L.State, e: L.Event, t: L.State)
    requires Promises.Effect(s, e, t) && Keeps(s, e)
    ensures t.cmds.Keys == s.cmds.Keys + if e.Add? then {e.name} else {}
  {
    hide L.Idle, L.Opened, L.Closed, L.BcstBlocked, L.Running;
  }

  lemma WireKeys(w: Wire, s: L.State, e: L.Event, spec: Request, now: real)
    requires L.Enabled(s, e) && Keeps(s, e) && w.sents.Keys == s.cmds.Keys
    ensures Wires.Step(w, s, e, spec, now).sents.Keys == w.sents.Keys + if e.Add? then {e.name} else {}
  {
    hide L.Step, Halted, L.BcstBlocked, L.Forwards;
  }

  // Times never go back.
  ghost predicate Timely(clock: real, script: seq<Item>) {
    (forall i | i in script :: clock <= i.now) && forall i, j | 0 <= i < j < |script| :: script[i].now <= script[j].now
  }

  // No step of the script removes a command.
  ghost predicate Lasting(x: World, script: seq<Item>) {
    script == [] ||
    (var front, i := script[..|script| - 1], script[|script| - 1];
     Lasting(x, front) && (Happens(Course(x, front), i) ==> Keeps(Course(x, front).life, Met(Course(x, front), i))))
  }

  ghost predicate Steady(p: P.State, x: World) {
    PaceIs(p, x.wire) && L.Core(x.life) && x.wire.sents.Keys == x.life.cmds.Keys
  }

  lemma MetIs(x: World, i: Item)
    ensures Met(x, i).CltEvent? || Met(x, i).BcstEvent? ==> Met(x, i).due == DueAt(x.wire, Met(x, i), i.now)
    ensures Met(x, i).BcstEvent? && Happens(x, i) ==> x.wire.slow.Some?
  {}

  lemma CourseStep(p: P.State, x: World, i: Item) returns (es: seq<(P.Event, real)>, q: P.State)
    requires Steady(p, x) && p.clock <= i.now && (Happens(x, i) ==> Keeps(x.life, Met(x, i)))
    ensures P.Run(p, es, q) && q.clock <= i.now && Steady(q, Next(x, i))
  {
    if Happens(x, i) {
      var e := Met(x, i);
      NextIs(x, i);
      MetIs(x, i);
      es, q := StepRun(p, x.wire, x.life, e, i.spec, i.now);
      L.StepCore(x.life, e);
      KeysKept(x.wire, x.life, e, i.spec, i.now);
      hide L.Core, L.Step, PaceIs, P.Run, Keeps, Next, Wires.Step, L.Enabled;
    } else {
      RunNone(p);
      es, q := [], p;
    }
  }

  // Along every script that removes no command, what the commands are sent is a run of the
  // pacing model.
  lemma {:induction false} CourseRuns(p: P.State, x: World, script: seq<Item>) returns (es: seq<(P.Event, real)>, q: P.State)
    requires Steady(p, x) && Timely(p.clock, script) && Lasting(x, script)
    ensures P.Run(p, es, q) && Steady(q, Course(x, script))
    ensures q.clock <= if script == [] then p.clock else script[|script| - 1].now
  {
    if script == [] {
      RunNone(p);
      es, q := [], p;
    } else {
      var front, i := script[..|script| - 1], script[|script| - 1];
      assert i in script && forall k | k in front :: k in script;
      assert front != [] ==> front[|front| - 1] == script[|script| - 2];
      var before, mid := CourseRuns(p, x, front);
      var more;
      more, q := CourseStep(mid, Course(x, front), i);
      RunConcat(p, before, mid, more, q);
      es := before + more;
      hide Steady, Next, P.Run;
    }
  }

  // The deliveries of a command: each client byte comes at least its delay after all before.
  ghost predicate ClientsSpaced(sent: Sending, delay: real) {
    forall i, j | 0 <= i < j < |sent.log| && sent.log[j].kind == Client :: sent.log[j].at - sent.log[i].at >= delay
  }

  // Over every script that removes no command, on the heap: the slowest command has the
  // largest delay, client bytes reach every command at least its delay after whatever
  // reached it before, and so does everything else that the pacing model says of its runs.
  lemma CoursePaced(p: P.State, x: World, script: seq<Item>) returns (es: seq<(P.Event, real)>, q: P.State)
    requires P.Inv(p) && Steady(p, x) && Timely(p.clock, script) && Lasting(x, script)
    ensures P.Run(p, es, q) && P.Inv(q) && PaceIs(q, Course(x, script).wire)
    ensures var w := Course(x, script).wire;
      && (forall n | n in w.specs && w.slow.Some? :: w.specs[n].delay <= w.slow.value.delay)
      && (forall n | n in w.sents :: n in w.specs && ClientsSpaced(w.sents[n], w.specs[n].delay))
  {
    es, q := CourseRuns(p, x, script);
    P.RunInv(p, es, q);
    SpacedIs(q, Course(x, script).wire);
  }

  lemma SpacedIs(q: P.State, w: Wire)
    requires P.Inv(q) && PaceIs(q, w)
    ensures forall n | n in w.specs && w.slow.Some? :: w.specs[n].delay <= w.slow.value.delay
    ensures forall n | n in w.sents :: n in w.specs && ClientsSpaced(w.sents[n], w.specs[n].delay)
  {
    forall n | n in w.specs ensures q.lanes[n].delay == w.specs[n].delay { assert SpecDelays(w)[n] == w.specs[n].delay; }
    forall n | n in w.sents ensures n in w.specs && ClientsSpaced(w.sents[n], w.specs[n].delay) {
      assert P.LaneOK(q, n);
    }
  }
}
