// Runs in which bytes left in a command's tty mislead yar: for every ready string, a
// process is taken to be ready by what an earlier one printed, a command becomes ready
// while it is down, and the assert on the global count fails.
module Stale {
  import opened Text
  import opened Lifecycle
  import opened Promises
  import opened Gating
  import Ready

  ghost predicate RunsTo(s: State, evs: seq<Event>, t: State) {
    Admitted(s, evs) && Run(s, evs) == t
  }

  lemma Then(s: State, evs: seq<Event>, t: State, e: Event)
    requires RunsTo(s, evs, t) && Enabled(t, e)
    ensures RunsTo(s, evs + [e], Step(t, e))
    ensures NoLateReady(s, evs) && !LateReady(t, e) ==> NoLateReady(s, evs + [e])
  {
    assert (evs + [e])[..|evs|] == evs;
  }

  lemma Nothing(s: State)
    ensures RunsTo(s, [], s) && NoLateReady(s, [])
  {}

  function Calm(s: State): bool { !s.flags.exited && !s.flags.aborted }

  function With(s: State, n: string, c: Cmd): State { s.(cmds := s.cmds[n := c]) }

  function Bytes(text: string, writer: nat): seq<Byte> {
    seq(|text|, i requires 0 <= i < |text| => Byte(text[i], writer))
  }

  // A process of n writes a text.
  lemma {:induction false} WriteText(s: State, evs: seq<Event>, t: State, n: string, text: string, w: nat)
    returns (evs': seq<Event>)
    requires RunsTo(s, evs, t) && Calm(t) && n in t.cmds && w % 2 == 1 && w <= |t.cmds[n].life|
    ensures RunsTo(s, evs', With(t, n, t.cmds[n].(queue := t.cmds[n].queue + Bytes(text, w))))
    ensures NoLateReady(s, evs) ==> NoLateReady(s, evs')
    decreases |text|
  {
    if text == "" {
      evs' := evs;
      assert t.cmds[n].queue + Bytes(text, w) == t.cmds[n].queue;
      assert With(t, n, t.cmds[n]) == t;
    } else {
      var front, b := text[..|text| - 1], Byte(text[|text| - 1], w);
      var mid := WriteText(s, evs, t, n, front, w);
      var u := With(t, n, t.cmds[n].(queue := t.cmds[n].queue + Bytes(front, w)));
      Then(s, mid, u, CmdWrite(n, b));
      evs' := mid + [CmdWrite(n, b)];
      assert Bytes(text, w) == Bytes(front, w) + [b];
      assert t.cmds[n].queue + Bytes(text, w) == (t.cmds[n].queue + Bytes(front, w)) + [b];
      assert Step(u, CmdWrite(n, b)) == With(t, n, t.cmds[n].(queue := t.cmds[n].queue + Bytes(text, w)));
    }
  }

  // The state after the first k bytes of the ready string have been read.
  function ReadState(t: State, n: string, k: nat): State
    requires n in t.cmds && k <= |t.cmds[n].queue|
  {
    var c := t.cmds[n];
    With(t, n, c.(readycnt := k, queue := c.queue[k..], seen := c.seen + c.queue[..k]))
      .(cmdsreadycnt := t.cmdsreadycnt + One(k == |ReadyStr(t)|))
  }

  lemma {:induction false} ReadText(s: State, evs: seq<Event>, t: State, n: string, k: nat) returns (evs': seq<Event>)
    requires RunsTo(s, evs, t) && Calm(t) && n in t.cmds && t.cmds[n].readycnt == 0
    requires k <= |ReadyStr(t)| && 0 < |ReadyStr(t)| <= |t.cmds[n].queue|
    requires Chars(t.cmds[n].queue[..|ReadyStr(t)|]) == ReadyStr(t)
    requires k < |ReadyStr(t)| || t.cmdsreadycnt < |t.cmds|
    ensures RunsTo(s, evs', ReadState(t, n, k))
    ensures NoLateReady(s, evs) && (Running(t.cmds[n]) || k < |ReadyStr(t)|) ==> NoLateReady(s, evs')
    decreases k
  {
    if k == 0 {
      evs' := evs;
      assert ReadState(t, n, k) == t by {
        assert t.cmds[n].seen + t.cmds[n].queue[..0] == t.cmds[n].seen;
        assert t.cmds[n].queue[0..] == t.cmds[n].queue;
      }
    } else {
      var mid := ReadText(s, evs, t, n, k - 1);
      var u := ReadState(t, n, k - 1);
      ReadNext(t, n, k - 1);
      Then(s, mid, u, CmdEvent(n));
      evs' := mid + [CmdEvent(n)];
    }
  }

  lemma ReadNext(t: State, n: string, k: nat)
    requires Calm(t) && n in t.cmds && k < |ReadyStr(t)| <= |t.cmds[n].queue|
    requires Chars(t.cmds[n].queue[..|ReadyStr(t)|]) == ReadyStr(t)
    ensures var u := ReadState(t, n, k);
      && Enabled(u, CmdEvent(n)) && (Completing(ReadyStr(u), u.cmds[n]) <==> k + 1 == |ReadyStr(t)|)
      && (k + 1 < |ReadyStr(t)| || t.cmdsreadycnt < |t.cmds| ==> Step(u, CmdEvent(n)) == ReadState(t, n, k + 1))
  {
    var u, c, ready := ReadState(t, n, k), t.cmds[n], ReadyStr(t);
    var b := c.queue[k];
    assert u.cmds[n].queue[0] == b && u.cmds[n].queue[1..] == c.queue[k + 1..];
    assert Chars(c.queue[..|ready|])[k] == b.c;
    assert (c.seen + c.queue[..k]) + [b] == c.seen + c.queue[..k + 1];
    assert |u.cmds| == |t.cmds| by { assert u.cmds.Keys == t.cmds.Keys; assert |u.cmds.Keys| == |t.cmds.Keys|; }
  }

  // A client opens the tty of n, its process prints the ready string, and yar has read
  // nothing of it yet.
  function Printed(s: State, n: string, pid: int): State
    requires n in s.cmds
  {
    var t := CltNotifyOpen(s, n, pid);
    With(t, n, t.cmds[n].(queue := Bytes(ReadyStr(s), 1)))
  }

  lemma PrintedRun(s: State, n: string, pid: int) returns (evs: seq<Event>)
    requires Init(s) && n in s.cmds && pid > 0
    ensures RunsTo(s, evs, Printed(s, n, pid)) && NoLateReady(s, evs)
  {
    Nothing(s);
    Then(s, [], s, CltOpen(n, pid));
    var t := CltNotifyOpen(s, n, pid);
    assert t == Step(s, CltOpen(n, pid));
    assert [] + Bytes(ReadyStr(s), 1) == Bytes(ReadyStr(s), 1);
    evs := WriteText(s, [] + [CltOpen(n, pid)], t, n, ReadyStr(s), 1);
  }

  lemma BytesChars(text: string, writer: nat)
    ensures Chars(Bytes(text, writer)) == text && |Bytes(text, writer)| == |text|
  {}

  lemma {:induction false} OwnNone(bs: seq<Byte>, writer: nat)
    requires forall b | b in bs :: b.writer != writer
    ensures Own(bs, writer) == ""
  {
    if bs != [] { OwnNone(bs[..|bs| - 1], writer); }
  }

  // A process prints the ready string and exits before yar has read it all; its restarted
  // successor is ready without having printed anything, and is sent what clients write.
  // The global count notices nothing.
  lemma StaleHappens(s: State, n: string, pid: int, next: int) returns (evs: seq<Event>)
    requires Init(s) && n in s.cmds && pid > 0 && next > 0 && ReadyStr(s) != ""
    requires s.flags.restart && !s.flags.cmddelonexit
    ensures Admitted(s, evs) && NoLateReady(s, evs)
    ensures var t := Run(s, evs);
      && Inv(t) && n in t.cmds && Running(t.cmds[n]) && t.cmds[n].pid == next
      && Own(t.cmds[n].seen, |t.cmds[n].life|) == "" && n in Writes(t, CltEvent(n, true))
  {
    hide *;
    var ready := ReadyStr(s);
    evs := PrintedRun(s, n, pid);
    RestartedState(s, n, pid, next);
    Then(s, evs, Printed(s, n, pid), Exit(n, next));
    evs := evs + [Exit(n, next)];
    var u := PidEvent(Printed(s, n, pid), n, next);
    WholeQueue(u, n, 1);
    evs := ReadText(s, evs, u, n, |ready|);
    MisledState(u, n);
    Arrives(s, evs, ReadState(u, n, |ready|));
    AgreeingRun(s, evs);
  }

  lemma Arrives(s: State, evs: seq<Event>, t: State)
    requires RunsTo(s, evs, t)
    ensures Admitted(s, evs) && Run(s, evs) == t
  {}

  lemma WholeQueue(u: State, n: string, writer: nat)
    requires n in u.cmds && u.cmds[n].queue == Bytes(ReadyStr(u), writer)
    ensures var ready := ReadyStr(u);
      |ready| == |u.cmds[n].queue| && Chars(u.cmds[n].queue[..|ready|]) == ready
  {
    BytesChars(ReadyStr(u), writer);
    assert u.cmds[n].queue[..|ReadyStr(u)|] == Bytes(ReadyStr(u), writer);
  }

  lemma MisledState(u: State, n: string)
    requires n in u.cmds && Running(u.cmds[n]) && u.cmds[n].seen == [] && |u.cmds[n].life| == 3
    requires ReadyStr(u) != "" && u.cmds[n].queue == Bytes(ReadyStr(u), 1) && |u.cmds[n].queue| == |ReadyStr(u)|
    ensures var v := ReadState(u, n, |ReadyStr(u)|);
      && n in v.cmds && Running(v.cmds[n]) && v.cmds[n].pid == u.cmds[n].pid
      && Own(v.cmds[n].seen, |v.cmds[n].life|) == "" && n in Writes(v, CltEvent(n, true))
  {
    OwnNone(ReadState(u, n, |ReadyStr(u)|).cmds[n].seen, 3);
  }

  lemma RestartedState(s: State, n: string, pid: int, next: int)
    requires Init(s) && n in s.cmds && pid > 0 && next > 0 && ReadyStr(s) != ""
    requires s.flags.restart && !s.flags.cmddelonexit
    ensures var t := Printed(s, n, pid);
      Enabled(t, Exit(n, next)) && Step(t, Exit(n, next)) == PidEvent(t, n, next) && !LateReady(t, Exit(n, next))
    ensures var u := PidEvent(Printed(s, n, pid), n, next);
      && Calm(u) && n in u.cmds && Running(u.cmds[n]) && u.cmds[n].pid == next && u.cmds[n].readycnt == 0
      && u.cmds[n].seen == [] && u.cmds[n].queue == Bytes(ReadyStr(s), 1) && |u.cmds[n].life| == 3
      && ReadyStr(u) == ReadyStr(s) && u.cmdsreadycnt == 0 && |u.cmds| > 0
  {
    var u := PidEvent(Printed(s, n, pid), n, next);
    assert n in u.cmds.Keys && |u.cmds| == |u.cmds.Keys|;
  }

  // The client closes the tty before yar has read what was printed, so the process is
  // stopped first.
  function ShutDown(s: State, n: string, pid: int): State
    requires n in s.cmds
  {
    CltNotifyClose(Printed(s, n, pid), n)
  }

  lemma ClosedState(s: State, n: string, pid: int)
    requires Init(s) && n in s.cmds && pid > 0 && ReadyStr(s) != ""
    ensures var t := Printed(s, n, pid);
      Enabled(t, CltClose(n)) && Step(t, CltClose(n)) == ShutDown(s, n, pid) && !LateReady(t, CltClose(n))
    ensures var u := ShutDown(s, n, pid);
      && Calm(u) && u.cmds.Keys == s.cmds.Keys && |u.cmds| > 0 && !Running(u.cmds[n]) && u.cmds[n].readycnt == 0
      && u.cmds[n].queue == Bytes(ReadyStr(s), 1) && |u.cmds[n].life| == 2
      && ReadyStr(u) == ReadyStr(s) && u.cmdsreadycnt == 0 && u.children == map[]
  {
    var u := ShutDown(s, n, pid);
    assert n in u.cmds.Keys && |u.cmds| == |u.cmds.Keys|;
  }

  // Late ready bytes happen, for every ready string: an open, a close, and what the
  // stopped process had printed.
  lemma LateReadyHappens(s: State, n: string, pid: int) returns (evs: seq<Event>)
    requires Init(s) && n in s.cmds && pid > 0 && ReadyStr(s) != ""
    ensures Admitted(s, evs) && NoLateReady(s, evs)
    ensures Enabled(Run(s, evs), CmdEvent(n)) && LateReady(Run(s, evs), CmdEvent(n))
  {
    evs := ClosedRun(s, n, pid);
    var u, k := ShutDown(s, n, pid), |ReadyStr(s)| - 1;
    ClosedState(s, n, pid);
    BytesChars(ReadyStr(s), 1);
    assert u.cmds[n].queue[..|ReadyStr(s)|] == Bytes(ReadyStr(s), 1);
    hide ShutDown;
    evs := ReadText(s, evs, u, n, k);
    ReadNext(u, n, k);
  }

  lemma ClosedRun(s: State, n: string, pid: int) returns (evs: seq<Event>)
    requires Init(s) && n in s.cmds && pid > 0 && ReadyStr(s) != ""
    ensures RunsTo(s, evs, ShutDown(s, n, pid)) && NoLateReady(s, evs)
  {
    evs := PrintedRun(s, n, pid);
    ClosedState(s, n, pid);
    Then(s, evs, Printed(s, n, pid), CltClose(n));
    evs := evs + [CltClose(n)];
  }

  // The state after that byte and the next open.
  function Reopened(s: State, n: string, pid: int): State
    requires n in s.cmds && s.cmds[n].queue != []
  {
    CltNotifyOpen(Read(s, n), n, pid)
  }

  lemma ReopenedState(s: State, n: string, pid: int)
    requires Inv(s) && Enabled(s, CmdEvent(n)) && LateReady(s, CmdEvent(n)) && FreshPid(s, pid)
    ensures Enabled(Step(s, CmdEvent(n)), CltOpen(n, pid))
    ensures var u := Reopened(s, n, pid);
      && Step(Step(s, CmdEvent(n)), CltOpen(n, pid)) == u && u.cmds.Keys == s.cmds.Keys && u.flags == s.flags
      && (forall m | m in s.cmds && m != n :: u.cmds[m] == s.cmds[m])
      && Running(u.cmds[n]) && u.cmds[n].seen == [] && u.cmds[n].readycnt == 0
      && u.cmdsreadycnt == s.cmdsreadycnt + 1 && ReadyStr(s) != "" && s.cmds[n].readycnt < |ReadyStr(s)|
  {
    AgreeingCalm(s, CmdEvent(n));
    hide Inv;
  }

  // What follows: the next start forgets the match in the command but not in the global
  // count, which stays one too high, so a broadcast byte can go to a process that has
  // printed nothing.
  lemma LateReadyDrifts(s: State, n: string, pid: int)
    requires Inv(s) && Enabled(s, CmdEvent(n)) && LateReady(s, CmdEvent(n)) && FreshPid(s, pid)
    ensures var t := Step(s, CmdEvent(n));
      && Enabled(t, CltOpen(n, pid))
      && var u := Step(t, CltOpen(n, pid));
      && u.cmdsreadycnt == |ReadySet(u)| + 1
      && n in u.cmds && Running(u.cmds[n]) && u.cmds[n].seen == [] && u.cmds[n].readycnt == 0
      && ((forall m | m in s.cmds && m != n :: IsReady(ReadyStr(s), s.cmds[m])) ==> !BcstBlocked(u))
  {
    ReopenedState(s, n, pid);
    var u := Reopened(s, n, pid);
    hide Step, Enabled, Reopened, Core, CmdInv, LateSet;
    assert ReadyStr(u) == ReadyStr(s);
    assert ReadySet(u) == ReadySet(s);
    if forall m | m in s.cmds && m != n :: IsReady(ReadyStr(s), s.cmds[m]) {
      assert ReadySet(s) == s.cmds.Keys - {n};
      assert u.cmds.Keys == s.cmds.Keys;
    }
  }

  // The forgotten match of the only command, and then a real one: the assert on the count
  // fails and yar is gone.
  lemma AbortHappens(s: State, n: string, pid: int, next: int) returns (evs: seq<Event>)
    requires Init(s) && s.cmds.Keys == {n} && pid > 0 && next > 0 && ReadyStr(s) != ""
    ensures Admitted(s, evs) && Run(s, evs).flags.aborted
  {
    var ready := ReadyStr(s);
    var k := |ready|;
    evs := ClosedRun(s, n, pid);
    var u0 := ShutDown(s, n, pid);
    ClosedState(s, n, pid);
    BytesChars(ready, 1);
    assert u0.cmds[n].queue[..k] == Bytes(ready, 1);
    hide ShutDown;
    evs := ReadText(s, evs, u0, n, k);
    var u1 := ReadState(u0, n, k);
    Then(s, evs, u1, CltOpen(n, next));
    evs := evs + [CltOpen(n, next)];
    var u2 := CltNotifyOpen(u1, n, next);
    evs := ReopenedRun(s, evs, u2, n);
  }

  lemma ReopenedRun(s: State, evs: seq<Event>, u: State, n: string) returns (evs': seq<Event>)
    requires RunsTo(s, evs, u) && Calm(u) && u.cmds.Keys == {n} && ReadyStr(u) != "" && u.cmdsreadycnt == 1
    requires u.cmds[n].readycnt == 0 && u.cmds[n].queue == [] && |u.cmds[n].life| == 3
    ensures Admitted(s, evs') && Run(s, evs').flags.aborted
  {
    var ready := ReadyStr(u);
    var k := |ready|;
    evs' := WriteText(s, evs, u, n, ready, 3);
    var v := With(u, n, u.cmds[n].(queue := u.cmds[n].queue + Bytes(ready, 3)));
    assert [] + Bytes(ready, 3) == Bytes(ready, 3);
    WholeQueue(v, n, 3);
    evs' := ReadText(s, evs', v, n, k - 1);
    var w := ReadState(v, n, k - 1);
    ReadNext(v, n, k - 1);
    OnlyOne(v, n, k - 1);
    hide ReadState, With, Bytes;
    Then(s, evs', w, CmdEvent(n));
    evs' := evs' + [CmdEvent(n)];
  }

  lemma OnlyOne(v: State, n: string, k: nat)
    requires v.cmds.Keys == {n} && k <= |v.cmds[n].queue| && k < |ReadyStr(v)|
    ensures ReadState(v, n, k).cmdsreadycnt == v.cmdsreadycnt && |ReadState(v, n, k).cmds| == 1
  {
    var w := ReadState(v, n, k);
    assert w.cmds.Keys == {n} && |w.cmds| == |w.cmds.Keys|;
  }
}
