// The command lifecycle and ready protocol as a transition system: one step for each
// call of an event handler (cmd.c, main.c) and for each thing clients and processes
// do in between. The classes in cmd.dfy and main.dfy are proved to take these steps.
module Lifecycle {
  import opened Text
  import Ready

  // What happened to the process of a command.
  datatype Mark = Started | Reaped

  // Clients' side of a tty: counted opens, and bytes written but not yet read by yar.
  datatype Tty = Tty(opens: nat, inq: string)

  // A byte in a command's own tty. The writer is a process of the command or something it
  // left behind; writer says which: how many marks its life had just after that start.
  datatype Byte = Byte(c: char, writer: nat)

  // pid is -1 when no process runs. queue holds what yar has not read yet from the tty,
  // which outlives the processes; seen is what it has read since the latest start.
  datatype Cmd = Cmd(pid: int, readycnt: nat, restart: bool, deleteonexit: bool,
                     clt: Tty, queue: seq<Byte>, seen: seq<Byte>, life: seq<Mark>)

  // order lists the table's names as they were added, as uthash keeps them.
  // children are the live processes yar has forked and not reaped, with their owners.
  // flags are the global settings (globals_t); exited is set once yar has left theLoop,
  // aborted once the assert of cmd.c:81 has failed.
  datatype Flags = Flags(bcstflg: bool, restart: bool, exitonidle: bool, cmddelonexit: bool,
                         readystr: Option<string>, exited: bool, aborted: bool)

  datatype State = State(cmds: map<string, Cmd>, order: seq<string>, cmdsreadycnt: int, bcst: Tty,
                         children: map<int, string>, flags: Flags)

  // A pid in an event is the one fork would return; due tells whether pacing lets the
  // next byte be read. A command's own tty being opened or closed changes nothing here.
  datatype Event =
    | CmdWrite(name: string, b: Byte)
    | CmdEvent(name: string)
    | CmdNotify(name: string, isOpen: bool)
    | CltOpen(name: string, pid: int)
    | CltClose(name: string)
    | CltWrite(name: string, c: char)
    | CltEvent(name: string, due: bool)
    | BcstOpen(pids: map<string, int>)
    | BcstClose
    | BcstWrite(c: char)
    | BcstEvent(due: bool)
    | Exit(name: string, pid: int)
    | Add(name: string, pid: int)
    | Del(name: string)
    | IdleExit
    | Terminate

  const NOPID := -1

  function ReadyStr(s: State): string {
    if s.flags.readystr.Some? then s.flags.readystr.value else ""
  }

  predicate Running(c: Cmd) { c.pid != NOPID }

  predicate Idle(t: Tty) { t.opens == 0 && t.inq == "" }

  predicate IsReady(ready: string, c: Cmd) { |ready| == 0 || c.readycnt == |ready| }

  // Does this command count in cmdsreadycnt?
  predicate Counts(ready: string, c: Cmd) { |ready| > 0 && c.readycnt == |ready| }

  function One(b: bool): nat { if b then 1 else 0 }

  function NewCmd(deleteonexit: bool): Cmd {
    Cmd(NOPID, 0, true, deleteonexit, Tty(0, ""), [], [], [])
  }

  function Opened(t: Tty): Tty { t.(opens := t.opens + 1) }

  function Closed(t: Tty): Tty { t.(opens := if t.opens > 0 then t.opens - 1 else 0) }

  // cmdStart of a command that is not running: the tty keeps what is in it.
  function Launch(c: Cmd, pid: int): Cmd {
    c.(pid := pid, readycnt := 0, seen := [], life := c.life + [Started])
  }

  // The fields after its process was reaped, by cmdStop or by cmdPidEvent.
  function Halt(ready: string, c: Cmd): Cmd {
    c.(pid := NOPID, readycnt := if IsReady(ready, c) then 0 else c.readycnt,
       life := c.life + [Reaped])
  }

  function Start(s: State, n: string, pid: int): State
    requires n in s.cmds
  {
    var c := s.cmds[n];
    if Running(c) then s
    else s.(cmds := s.cmds[n := Launch(c, pid)], children := s.children[pid := n])
  }

  function Reap(s: State, n: string): State
    requires n in s.cmds
  {
    var c := s.cmds[n];
    s.(cmds := s.cmds[n := Halt(ReadyStr(s), c)],
       cmdsreadycnt := s.cmdsreadycnt - One(Counts(ReadyStr(s), c)),
       children := s.children - {c.pid})
  }

  // Would cmdStop stop this command?
  predicate Stops(c: Cmd, bcst: Tty, force: bool) {
    Running(c) && (force || (Idle(c.clt) && Idle(bcst)))
  }

  function Stop(s: State, n: string, force: bool): State
    requires n in s.cmds
  {
    if Stops(s.cmds[n], s.bcst, force) then Reap(s, n) else s
  }

  function SetClt(s: State, n: string, t: Tty): State
    requires n in s.cmds
  {
    s.(cmds := s.cmds[n := s.cmds[n].(clt := t)])
  }

  function Without(order: seq<string>, n: string): seq<string> {
    if order == [] then []
    else
      var front := Without(order[..|order| - 1], n);
      if order[|order| - 1] == n then front else front + [order[|order| - 1]]
  }

  lemma {:induction false} WithoutNone(a: seq<string>, n: string)
    requires n !in a
    ensures Without(a, n) == a
  {
    if a != [] { WithoutNone(a[..|a| - 1], n); }
  }

  // Taking a name out leaves the others in their order.
  lemma {:induction false} WithoutIs(a: seq<string>, n: string, b: seq<string>)
    requires n !in a && n !in b
    ensures Without(a + [n] + b, n) == a + b && Without(a + b, n) == a + b
    decreases |a| + |b|
  {
    if b == [] {
      assert (a + [n] + b)[..|a|] == a && a + b == a;
      WithoutNone(a, n);
    } else {
      var front, last := b[..|b| - 1], b[|b| - 1];
      WithoutIs(a, n, front);
      assert (a + [n] + b)[..|a + [n] + b| - 1] == a + [n] + front;
      assert (a + b)[..|a + b| - 1] == a + front;
      assert a + b == (a + front) + [last];
    }
  }

  function Remove(s: State, n: string): State {
    s.(cmds := s.cmds - {n}, order := Without(s.order, n))
  }

  // HASH_COUNT == 0 && exitonidle: clean up and exit.
  function QuitIfEmpty(s: State): State {
    if |s.cmds| == 0 && s.flags.exitonidle then s.(flags := s.flags.(exited := true)) else s
  }

  // The loops over the table run in insertion order (HASH_ITER).
  function StartAll(s: State, order: seq<string>, pids: map<string, int>): (t: State)
    ensures t.cmds.Keys == s.cmds.Keys
  {
    if order == [] then s
    else
      var n, front := order[|order| - 1], StartAll(s, order[..|order| - 1], pids);
      if n in s.cmds && n in pids then Start(front, n, pids[n]) else front
  }

  function StopAll(s: State, order: seq<string>, force: bool): (t: State)
    ensures t.cmds.Keys == s.cmds.Keys
  {
    if order == [] then s
    else
      var n, front := order[|order| - 1], StopAll(s, order[..|order| - 1], force);
      if n in s.cmds then Stop(front, n, force) else front
  }

  function Chars(bs: seq<Byte>): string {
    seq(|bs|, i requires 0 <= i < |bs| => bs[i].c)
  }

  // A command writes to its tty.
  function Written(s: State, n: string, b: Byte): State
    requires n in s.cmds
  {
    s.(cmds := s.cmds[n := s.cmds[n].(queue := s.cmds[n].queue + [b])])
  }

  // The ready-string block of cmdttyProcessOutput (cmd.c:73-98), on the command.
  function Take(ready: string, c: Cmd): Cmd
    requires c.queue != []
  {
    var b := c.queue[0];
    c.(readycnt := Ready.Advance(ready, c.readycnt, b.c), queue := c.queue[1..], seen := c.seen + [b])
  }

  // Does the next byte complete the ready string?
  predicate Completing(ready: string, c: Cmd) {
    c.queue != [] && Ready.Completes(ready, c.readycnt, c.queue[0].c)
  }

  // ... with the assert on the global count failing (cmd.c:80-81).
  predicate Fires(s: State, n: string)
    requires n in s.cmds
  {
    Completing(ReadyStr(s), s.cmds[n]) && s.cmdsreadycnt + 1 > |s.cmds|
  }

  function Read(s: State, n: string): State
    requires n in s.cmds && s.cmds[n].queue != []
  {
    var ready, c := ReadyStr(s), s.cmds[n];
    s.(cmds := s.cmds[n := Take(ready, c)],
       cmdsreadycnt := s.cmdsreadycnt + One(Completing(ready, c)),
       flags := s.flags.(aborted := s.flags.aborted || Fires(s, n)))
  }

  predicate BcstBlocked(s: State) {
    s.flags.readystr.Some? && s.cmdsreadycnt < |s.cmds|
  }

  function Insert(s: State, n: string): State {
    s.(cmds := s.cmds[n := NewCmd(s.flags.cmddelonexit)], order := s.order + [n])
  }

  // The handlers.

  // ttyNotifyEvent and cmdCltttyNotify.
  function CltNotifyOpen(s: State, n: string, pid: int): State
    requires n in s.cmds
  {
    Start(SetClt(s, n, Opened(s.cmds[n].clt)), n, pid)
  }

  function CltNotifyClose(s: State, n: string): State
    requires n in s.cmds
  {
    Stop(SetClt(s, n, Closed(s.cmds[n].clt)), n, false)
  }

  function CltWritten(s: State, n: string, c: char): State
    requires n in s.cmds
  {
    var t := s.cmds[n].clt;
    SetClt(s, n, t.(inq := t.inq + [c]))
  }

  // Does cmdCltttyEvent forward the next byte?
  predicate Forwards(s: State, n: string, due: bool)
    requires n in s.cmds
  {
    IsReady(ReadyStr(s), s.cmds[n]) && due
  }

  function CltReadable(s: State, n: string, due: bool): State
    requires n in s.cmds && s.cmds[n].clt.inq != ""
  {
    var t := s.cmds[n].clt;
    if Forwards(s, n, due) then Stop(SetClt(s, n, t.(inq := t.inq[1..])), n, false) else s
  }

  // ttyNotifyEvent and bcstttyNotify.
  function BcstNotifyOpen(s: State, pids: map<string, int>): State {
    StartAll(s.(bcst := Opened(s.bcst)), s.order, pids)
  }

  function BcstNotifyClose(s: State): State {
    StopAll(s.(bcst := Closed(s.bcst)), s.order, false)
  }

  function BcstReadable(s: State, due: bool): State
    requires s.bcst.inq != ""
  {
    if BcstBlocked(s) || !due then s
    else s.(bcst := s.bcst.(inq := s.bcst.inq[1..]))
  }

  // cmdPidEvent: delete on exit comes first, then restart on exit.
  function PidEvent(s: State, n: string, pid: int): State
    requires n in s.cmds
  {
    var c, s1 := s.cmds[n], Reap(s, n);
    if c.deleteonexit then QuitIfEmpty(Remove(s1, n))
    else if s.flags.restart && c.restart then Start(s1, n, pid)
    else s1
  }

  function MonAdd(s: State, n: string, pid: int): State {
    if n in s.cmds then s
    else
      var s1 := Insert(s, n);
      if !s.flags.bcstflg && |s1.cmds| > 1 then s1.(flags := s1.flags.(bcstflg := true), bcst := Tty(0, ""))
      else if s.bcst.opens > 0 then Start(s1, n, pid)
      else s1
  }

  function MonDel(s: State, n: string): State {
    if n in s.cmds then QuitIfEmpty(Remove(Stop(s, n, true), n)) else s
  }

  function MonIdleExit(s: State): State {
    var s1 := s.(flags := s.flags.(exitonidle := true, cmddelonexit := true));
    if |s.cmds| == 0 then s1.(flags := s1.flags.(exited := true))
    else s1.(cmds := map n | n in s.cmds :: s.cmds[n].(deleteonexit := true))
  }

  // cleanup, on a signal or monExit.
  function Cleanup(s: State): State {
    var t := StopAll(s, s.order, true);
    t.(cmds := map[], order := [], flags := t.flags.(exited := true))
  }

  function Step(s: State, e: Event): State
    requires Enabled(s, e)
  {
    match e
    case CmdWrite(n, b) => Written(s, n, b)
    case CmdEvent(n) => Read(s, n)
    case CmdNotify(_, _) => s
    case CltOpen(n, pid) => CltNotifyOpen(s, n, pid)
    case CltClose(n) => CltNotifyClose(s, n)
    case CltWrite(n, c) => CltWritten(s, n, c)
    case CltEvent(n, due) => CltReadable(s, n, due)
    case BcstOpen(pids) => BcstNotifyOpen(s, pids)
    case BcstClose => BcstNotifyClose(s)
    case BcstWrite(c) => s.(bcst := s.bcst.(inq := s.bcst.inq + [c]))
    case BcstEvent(due) => BcstReadable(s, due)
    case Exit(n, pid) => PidEvent(s, n, pid)
    case Add(n, pid) => MonAdd(s, n, pid)
    case Del(n) => MonDel(s, n)
    case IdleExit => MonIdleExit(s)
    case Terminate => Cleanup(s)
  }

  ghost predicate Distinct(order: seq<string>) {
    forall i, j | 0 <= i < j < |order| :: order[i] != order[j]
  }

  ghost predicate Listed(s: State) {
    (forall n :: n in s.order <==> n in s.cmds) && Distinct(s.order)
  }

  predicate FreshPid(s: State, pid: int) {
    pid > 0 && pid !in s.children
  }

  predicate FreshPids(s: State, pids: map<string, int>) {
    && s.cmds.Keys <= pids.Keys
    && (forall n | n in s.cmds :: FreshPid(s, pids[n]))
    && (forall m, n | m in s.cmds && n in s.cmds && m != n :: pids[m] != pids[n])
  }

  // The handler can be called: its command is in the table, its tty exists and has
  // something to read, its process has ended; fork returns unused pids. A byte is written
  // by a process that has been started.
  predicate Enabled(s: State, e: Event) {
    && !s.flags.exited && !s.flags.aborted
    && match e
       case CmdWrite(n, b) => n in s.cmds && b.writer % 2 == 1 && b.writer <= |s.cmds[n].life|
       case CmdEvent(n) => n in s.cmds && s.cmds[n].queue != []
       case CmdNotify(n, _) => n in s.cmds
       case CltOpen(n, pid) => n in s.cmds && FreshPid(s, pid)
       case CltClose(n) => n in s.cmds
       case CltWrite(n, _) => n in s.cmds
       case CltEvent(n, _) => n in s.cmds && s.cmds[n].clt.inq != ""
       case BcstOpen(pids) => s.flags.bcstflg && FreshPids(s, pids)
       case BcstClose => s.flags.bcstflg
       case BcstWrite(_) => s.flags.bcstflg
       case BcstEvent(_) => s.flags.bcstflg && s.bcst.inq != ""
       case Exit(n, pid) => n in s.cmds && Running(s.cmds[n]) && (pid == s.cmds[n].pid || FreshPid(s, pid))
       case Add(_, pid) => FreshPid(s, pid)
       case Del(_) => true
       case IdleExit => true
       case Terminate => true
  }

  // From s to t the named command becomes p; the counters and the abort flag are as given.
  ghost predicate Moves(s: State, t: State, n: string, p: Cmd, count: int, children: map<int, string>, aborted: bool) {
    && n in s.cmds && t.cmds.Keys == s.cmds.Keys && t.cmds[n] == p
    && (forall m | m in s.cmds && m != n :: t.cmds[m] == s.cmds[m])
    && t.order == s.order && t.bcst == s.bcst && t.flags == s.flags.(aborted := aborted)
    && t.cmdsreadycnt == count && t.children == children
  }

  // ---- The joint invariant ----

  ghost predicate Alternates(life: seq<Mark>) {
    forall i | 0 <= i < |life| :: life[i] == if i % 2 == 0 then Started else Reaped
  }

  ghost predicate CmdInv(ready: string, c: Cmd) {
    && (c.pid == NOPID || c.pid > 0)
    && c.readycnt <= |ready|
    && (Running(c) ==> c.readycnt == Ready.Match(ready, Chars(c.seen)))
    && Alternates(c.life)
    && (Running(c) <==> |c.life| % 2 == 1)
  }

  ghost function ReadySet(s: State): set<string> {
    set n | n in s.cmds && Counts(ReadyStr(s), s.cmds[n])
  }

  // Ready, but not running: a process may leave bytes in its tty, and yar matches those
  // too when it reads them after the process has been reaped.
  predicate Late(ready: string, c: Cmd) { Counts(ready, c) && !Running(c) }

  ghost function LateSet(s: State): set<string> {
    set n | n in s.cmds && Late(ReadyStr(s), s.cmds[n])
  }

  // By how much the global count exceeds the number of ready commands.
  ghost function Gap(s: State): int { s.cmdsreadycnt - |ReadySet(s)| }

  ghost predicate OneChildEach(s: State) {
    && (forall n | n in s.cmds && Running(s.cmds[n]) ::
          s.cmds[n].pid in s.children && s.children[s.cmds[n].pid] == n)
    && (forall p | p in s.children ::
          s.children[p] in s.cmds && s.cmds[s.children[p]].pid == p && p > 0)
  }

  ghost predicate Shape(s: State) {
    && (forall n | n in s.cmds :: CmdInv(ReadyStr(s), s.cmds[n]))
    && OneChildEach(s)
    && Listed(s)
    && (!s.flags.bcstflg ==> s.bcst == Tty(0, ""))
  }

  // What every step keeps.
  ghost predicate Core(s: State) {
    Shape(s) && Gap(s) >= 0
  }

  // The global count is the number of ready commands, and those are running.
  ghost predicate Agrees(s: State) {
    Gap(s) == 0 && LateSet(s) == {}
  }

  ghost predicate Inv(s: State) {
    Core(s) && Agrees(s)
  }

  // The state theLoop starts in: commands created, none started (lazy start).
  ghost predicate Init(s: State) {
    && (forall n | n in s.cmds :: s.cmds[n] == NewCmd(s.flags.cmddelonexit))
    && Listed(s)
    && s.cmdsreadycnt == 0 && s.bcst == Tty(0, "") && s.children == map[] && !s.flags.exited && !s.flags.aborted
  }

  lemma InitInv(s: State)
    requires Init(s)
    ensures Inv(s)
  {
    assert ReadySet(s) == {};
    assert LateSet(s) == {};
  }

  // From s to t no command becomes late, and each one that stops being late, because it is
  // started or deleted, adds one to the gap: cmdStart zeroes readycnt and leaves the
  // global count alone (cmd.c:660), and so does deleting a command that is not running.
  ghost predicate Follows(s: State, t: State) {
    && Core(t)
    && LateSet(t) <= LateSet(s)
    && Gap(t) == Gap(s) + |LateSet(s) - LateSet(t)|
  }

  lemma FollowsBy(s: State, t: State)
    requires Core(s) && Shape(t) && LateSet(t) <= LateSet(s)
    requires t.cmdsreadycnt - |ReadySet(t)| == s.cmdsreadycnt - |ReadySet(s)| + |LateSet(s) - LateSet(t)|
    ensures Follows(s, t)
  {
    hide Shape, ReadySet, LateSet;
  }

  lemma Without1<T>(a: set<T>, x: T)
    ensures |a - {x}| == |a| - One(x in a)
    ensures a - (a - {x}) == if x in a then {x} else {}
    ensures |a - (a - {x})| == One(x in a)
  {
    if x in a {
      assert a == (a - {x}) + {x};
    } else {
      assert a - {x} == a;
    }
  }

  lemma FollowsSelf(s: State)
    requires Core(s)
    ensures Follows(s, s)
  {
    assert LateSet(s) - LateSet(s) == {};
  }

  lemma FollowsTwice(s: State, t: State, u: State)
    requires Follows(s, t) && Follows(t, u)
    ensures Follows(s, u)
  {
    var a, b := LateSet(s) - LateSet(t), LateSet(t) - LateSet(u);
    assert LateSet(s) - LateSet(u) == a + b;
    assert a * b == {};
  }

  // The sets are the same on both sides.
  lemma FollowsSame(s: State, t: State)
    requires Core(s) && ReadySet(t) == ReadySet(s) && LateSet(t) == LateSet(s) && t.cmdsreadycnt == s.cmdsreadycnt
    requires Shape(t)
    ensures Follows(s, t)
  {
    hide Shape;
    assert LateSet(s) - LateSet(t) == {};
  }

  // One command is replaced.
  ghost predicate Updated(s: State, t: State, n: string, c: Cmd) {
    && n in s.cmds
    && t.cmds == s.cmds[n := c]
    && t.order == s.order
    && ReadyStr(t) == ReadyStr(s)
    && (!t.flags.bcstflg ==> t.bcst == Tty(0, ""))
  }

  // The global count follows it.
  ghost predicate CountFollows(s: State, t: State, n: string, c: Cmd)
    requires n in s.cmds
  {
    var ready, o := ReadyStr(s), s.cmds[n];
    t.cmdsreadycnt == s.cmdsreadycnt - One(Counts(ready, o)) + One(Counts(ready, c))
  }

  lemma UpdatedSets(s: State, t: State, n: string, c: Cmd)
    requires Updated(s, t, n, c)
    ensures ReadySet(t) == if Counts(ReadyStr(s), c) then ReadySet(s) + {n} else ReadySet(s) - {n}
    ensures LateSet(t) == if Late(ReadyStr(s), c) then LateSet(s) + {n} else LateSet(s) - {n}
    ensures n in ReadySet(s) <==> Counts(ReadyStr(s), s.cmds[n])
    ensures n in LateSet(s) <==> Late(ReadyStr(s), s.cmds[n])
  {}

  lemma SameSets(s: State, t: State, n: string, c: Cmd)
    requires n in s.cmds && CountFollows(s, t, n, c)
    requires ReadySet(t) == if Counts(ReadyStr(s), c) then ReadySet(s) + {n} else ReadySet(s) - {n}
    requires n in ReadySet(s) <==> Counts(ReadyStr(s), s.cmds[n])
    requires LateSet(t) == if Late(ReadyStr(s), c) then LateSet(s) + {n} else LateSet(s) - {n}
    requires n in LateSet(s) <==> Late(ReadyStr(s), c)
    ensures LateSet(t) <= LateSet(s)
    ensures t.cmdsreadycnt - |ReadySet(t)| == s.cmdsreadycnt - |ReadySet(s)| + |LateSet(s) - LateSet(t)|
  {
    hide ReadySet, LateSet, Counts, Late;
    assert LateSet(t) == LateSet(s);
    assert LateSet(s) - LateSet(t) == {};
    Without1(ReadySet(s), n);
    Without1(ReadySet(t), n);
  }

  // The count follows: a change that makes no command late, of one that is not.
  lemma UpdatedFollows(s: State, t: State, n: string, c: Cmd)
    requires Core(s) && Updated(s, t, n, c) && CmdInv(ReadyStr(s), c) && OneChildEach(t)
    requires CountFollows(s, t, n, c) && Late(ReadyStr(s), c) == Late(ReadyStr(s), s.cmds[n])
    ensures Follows(s, t)
  {
    assert Shape(t);
    UpdatedSets(s, t, n, c);
    hide *;
    SameSets(s, t, n, c);
    FollowsBy(s, t);
  }

  lemma {:induction false} WithoutIn(order: seq<string>, n: string)
    ensures forall m :: m in Without(order, n) <==> m in order && m != n
    ensures Distinct(order) ==> Distinct(Without(order, n))
  {
    if order != [] {
      var front, last := order[..|order| - 1], order[|order| - 1];
      WithoutIn(front, n);
      if Distinct(order) {
        assert Distinct(front);
        forall i | 0 <= i < |Without(front, n)| ensures Without(front, n)[i] != last {
          assert Without(front, n)[i] in front;
        }
      }
    }
  }

  // One command leaves the table; if it was late, the count is not told.
  lemma RemoveFollows(s: State, n: string)
    requires Core(s) && n in s.cmds && !Running(s.cmds[n])
    ensures Follows(s, Remove(s, n))
  {
    var t := Remove(s, n);
    RemoveShape(s, n);
    RemoveSets(s, n);
    assert Late(ReadyStr(s), s.cmds[n]) == Counts(ReadyStr(s), s.cmds[n]);
    hide *;
    Without1(ReadySet(s), n);
    Without1(LateSet(s), n);
    FollowsBy(s, t);
  }

  lemma RemoveShape(s: State, n: string)
    requires Shape(s) && n in s.cmds && !Running(s.cmds[n])
    ensures Shape(Remove(s, n))
  {
    WithoutIn(s.order, n);
  }

  lemma RemoveSets(s: State, n: string)
    requires n in s.cmds
    ensures ReadySet(Remove(s, n)) == ReadySet(s) - {n} && LateSet(Remove(s, n)) == LateSet(s) - {n}
    ensures n in ReadySet(s) <==> Counts(ReadyStr(s), s.cmds[n])
    ensures n in LateSet(s) <==> Late(ReadyStr(s), s.cmds[n])
    ensures Remove(s, n).cmdsreadycnt == s.cmdsreadycnt
  {}

  // A started command is forgotten by the count in the same way.
  lemma StartFollows(s: State, n: string, pid: int)
    requires Core(s) && n in s.cmds && (Running(s.cmds[n]) || FreshPid(s, pid))
    ensures Follows(s, Start(s, n, pid))
  {
    if Running(s.cmds[n]) {
      FollowsSelf(s);
    } else {
      var t := Start(s, n, pid);
      StartShape(s, n, pid);
      StartSets(s, n, pid);
      hide *;
      Without1(ReadySet(s), n);
      Without1(LateSet(s), n);
      FollowsBy(s, t);
    }
  }

  lemma StartSets(s: State, n: string, pid: int)
    requires n in s.cmds && !Running(s.cmds[n])
    ensures var t := Start(s, n, pid);
      ReadySet(t) == ReadySet(s) - {n} && LateSet(t) == LateSet(s) - {n} && t.cmdsreadycnt == s.cmdsreadycnt
    ensures n in ReadySet(s) <==> n in LateSet(s)
  {}

  lemma StartRuns(s: State, n: string, pid: int)
    requires n in s.cmds && (Running(s.cmds[n]) || FreshPid(s, pid))
    ensures var t := Start(s, n, pid);
      && Running(t.cmds[n]) && t.cmds.Keys == s.cmds.Keys
      && (forall m | m in s.cmds && m != n :: t.cmds[m] == s.cmds[m])
      && t.children.Keys <= s.children.Keys + {pid}
  {}

  lemma StartShape(s: State, n: string, pid: int)
    requires Shape(s) && n in s.cmds && !Running(s.cmds[n]) && FreshPid(s, pid)
    ensures Shape(Start(s, n, pid))
  {
    assert Chars([]) == "";
    assert CmdInv(ReadyStr(s), Launch(s.cmds[n], pid));
  }

  lemma ReapFollows(s: State, n: string)
    requires Core(s) && n in s.cmds && Running(s.cmds[n])
    ensures Follows(s, Reap(s, n))
    ensures Reap(s, n).children.Keys == s.children.Keys - {s.cmds[n].pid}
  {
    UpdatedFollows(s, Reap(s, n), n, Halt(ReadyStr(s), s.cmds[n]));
  }

  lemma StopFollows(s: State, n: string, force: bool)
    requires Core(s) && n in s.cmds
    ensures Follows(s, Stop(s, n, force))
    ensures force ==> !Running(Stop(s, n, force).cmds[n])
  {
    if Stops(s.cmds[n], s.bcst, force) { ReapFollows(s, n); } else { FollowsSelf(s); }
  }

  lemma SetCltFollows(s: State, n: string, t: Tty)
    requires Core(s) && n in s.cmds
    ensures Follows(s, SetClt(s, n, t))
  {
    UpdatedFollows(s, SetClt(s, n, t), n, s.cmds[n].(clt := t));
  }

  lemma WrittenFollows(s: State, n: string, b: Byte)
    requires Core(s) && n in s.cmds
    ensures Follows(s, Written(s, n, b))
  {
    UpdatedFollows(s, Written(s, n, b), n, s.cmds[n].(queue := s.cmds[n].queue + [b]));
  }

  ghost predicate PidsLeft(s: State, t: State, pids: map<string, int>)
    requires t.cmds.Keys == s.cmds.Keys <= pids.Keys
  {
    forall n | n in s.cmds && !Running(t.cmds[n]) :: pids[n] !in t.children
  }

  lemma PidsLeftStep(s: State, t: State, pids: map<string, int>, n: string)
    requires FreshPids(s, pids) && t.cmds.Keys == s.cmds.Keys && PidsLeft(s, t, pids) && n in s.cmds
    requires Core(t)
    ensures Follows(t, Start(t, n, pids[n])) && Running(Start(t, n, pids[n]).cmds[n])
    ensures PidsLeft(s, Start(t, n, pids[n]), pids)
  {
    StartFollows(t, n, pids[n]);
    StartRuns(t, n, pids[n]);
    hide Follows, Core;
  }

  lemma {:induction false} StartAllFollows(s: State, order: seq<string>, pids: map<string, int>)
    requires Core(s) && FreshPids(s, pids)
    ensures Follows(s, StartAll(s, order, pids))
    ensures PidsLeft(s, StartAll(s, order, pids), pids)
  {
    hide Start, Follows, PidsLeft;
    if order == [] {
      PidsLeftInit(s, pids);
      FollowsSelf(s);
    } else {
      var n, front := order[|order| - 1], StartAll(s, order[..|order| - 1], pids);
      StartAllFollows(s, order[..|order| - 1], pids);
      if n in s.cmds {
        FollowsCore(s, front);
        PidsLeftStep(s, front, pids, n);
        FollowsTwice(s, front, Start(front, n, pids[n]));
      }
    }
  }

  lemma FollowsCore(s: State, t: State)
    requires Follows(s, t)
    ensures Core(t)
  {}

  lemma PidsLeftInit(s: State, pids: map<string, int>)
    requires FreshPids(s, pids)
    ensures PidsLeft(s, s, pids)
  {}

  lemma {:induction false} StopAllFollows(s: State, order: seq<string>, force: bool)
    requires Core(s)
    requires forall n | n in order :: n in s.cmds
    ensures Follows(s, StopAll(s, order, force))
    ensures force ==> forall n | n in order :: !Running(StopAll(s, order, force).cmds[n])
  {
    if order == [] {
      FollowsSelf(s);
    } else {
      var n, front := order[|order| - 1], StopAll(s, order[..|order| - 1], force);
      StopAllFollows(s, order[..|order| - 1], force);
      hide Follows;
      FollowsCore(s, front);
      StopFollows(front, n, force);
      FollowsTwice(s, front, Stop(front, n, force));
    }
  }

  // LateReady: a byte completes the ready string of a command that is not running.
  predicate LateReady(s: State, e: Event) {
    e.CmdEvent? && e.name in s.cmds && !Running(s.cmds[e.name]) && Completing(ReadyStr(s), s.cmds[e.name])
  }

  // What a read does: the count follows, but the command may become late.
  ghost predicate Reads(s: State, t: State, late: bool, n: string) {
    if late then Core(t) && Gap(t) == Gap(s) && n !in LateSet(s) && LateSet(t) == LateSet(s) + {n}
    else Follows(s, t)
  }

  lemma TakeInv(ready: string, c: Cmd)
    requires CmdInv(ready, c) && c.queue != []
    ensures CmdInv(ready, Take(ready, c))
    ensures Counts(ready, Take(ready, c)) <==> Counts(ready, c) || Completing(ready, c)
    ensures Completing(ready, c) ==> !Counts(ready, c)
  {
    Ready.MatchSnoc(ready, 0, Chars(c.seen), c.queue[0].c);
    assert Chars(c.seen + [c.queue[0]]) == Chars(c.seen) + [c.queue[0].c];
  }

  lemma ReadFollows(s: State, n: string)
    requires Core(s) && n in s.cmds && s.cmds[n].queue != []
    ensures Reads(s, Read(s, n), LateReady(s, CmdEvent(n)), n)
  {
    var ready, c, t := ReadyStr(s), s.cmds[n], Read(s, n);
    TakeInv(ready, c);
    assert OneChildEach(t);
    if LateReady(s, CmdEvent(n)) {
      UpdatedSets(s, t, n, Take(ready, c));
      assert n !in ReadySet(s) && n !in LateSet(s);
    } else {
      UpdatedFollows(s, t, n, Take(ready, c));
    }
  }

  lemma CltNotifyFollows(s: State, n: string, pid: int)
    requires Core(s) && n in s.cmds
    ensures FreshPid(s, pid) ==> Follows(s, CltNotifyOpen(s, n, pid))
    ensures Follows(s, CltNotifyClose(s, n))
  {
    var t := s.cmds[n].clt;
    var a, b := SetClt(s, n, Opened(t)), SetClt(s, n, Closed(t));
    SetCltFollows(s, n, Opened(t));
    if FreshPid(s, pid) {
      StartFollows(a, n, pid);
      FollowsTwice(s, a, Start(a, n, pid));
    }
    SetCltFollows(s, n, Closed(t));
    StopFollows(b, n, false);
    FollowsTwice(s, b, Stop(b, n, false));
  }

  lemma CltWrittenFollows(s: State, n: string, c: char)
    requires Core(s) && n in s.cmds
    ensures Follows(s, CltWritten(s, n, c))
  {
    SetCltFollows(s, n, s.cmds[n].clt.(inq := s.cmds[n].clt.inq + [c]));
  }

  lemma CltReadableFollows(s: State, n: string, due: bool)
    requires Core(s) && n in s.cmds && s.cmds[n].clt.inq != ""
    ensures Follows(s, CltReadable(s, n, due))
  {
    if Forwards(s, n, due) {
      var t := s.cmds[n].clt;
      var a := SetClt(s, n, t.(inq := t.inq[1..]));
      SetCltFollows(s, n, t.(inq := t.inq[1..]));
      StopFollows(a, n, false);
      FollowsTwice(s, a, Stop(a, n, false));
    } else {
      FollowsSelf(s);
    }
  }

  lemma SetBcstFollows(s: State, t: Tty)
    requires Core(s) && s.flags.bcstflg
    ensures Follows(s, s.(bcst := t))
  {
    assert ReadySet(s.(bcst := t)) == ReadySet(s);
    assert LateSet(s.(bcst := t)) == LateSet(s);
    FollowsSame(s, s.(bcst := t));
  }

  lemma BcstNotifyOpenFollows(s: State, pids: map<string, int>)
    requires Core(s) && s.flags.bcstflg && FreshPids(s, pids)
    ensures Follows(s, BcstNotifyOpen(s, pids))
  {
    var a := s.(bcst := Opened(s.bcst));
    SetBcstFollows(s, Opened(s.bcst));
    StartAllFollows(a, s.order, pids);
    FollowsTwice(s, a, StartAll(a, s.order, pids));
  }

  lemma BcstNotifyCloseFollows(s: State)
    requires Core(s) && s.flags.bcstflg
    ensures Follows(s, BcstNotifyClose(s))
  {
    var a := s.(bcst := Closed(s.bcst));
    SetBcstFollows(s, Closed(s.bcst));
    StopAllFollows(a, s.order, false);
    FollowsTwice(s, a, StopAll(a, s.order, false));
  }

  lemma QuitFollows(s: State)
    requires Core(s)
    ensures Follows(s, QuitIfEmpty(s))
  {
    assert ReadySet(QuitIfEmpty(s)) == ReadySet(s);
    assert LateSet(QuitIfEmpty(s)) == LateSet(s);
    FollowsSame(s, QuitIfEmpty(s));
  }

  // A reaped or stopped command leaves the table.
  lemma DeleteFollows(s: State, n: string)
    requires Core(s) && n in s.cmds && !Running(s.cmds[n])
    ensures Follows(s, QuitIfEmpty(Remove(s, n)))
  {
    RemoveFollows(s, n);
    QuitFollows(Remove(s, n));
    FollowsTwice(s, Remove(s, n), QuitIfEmpty(Remove(s, n)));
  }

  lemma PidEventFollows(s: State, n: string, pid: int)
    requires Core(s) && n in s.cmds && Running(s.cmds[n]) && (pid == s.cmds[n].pid || FreshPid(s, pid))
    ensures Follows(s, PidEvent(s, n, pid))
  {
    var a := Reap(s, n);
    ReapFollows(s, n);
    if s.cmds[n].deleteonexit {
      DeleteFollows(a, n);
      FollowsTwice(s, a, QuitIfEmpty(Remove(a, n)));
    } else if s.flags.restart && s.cmds[n].restart {
      StartFollows(a, n, pid);
      FollowsTwice(s, a, Start(a, n, pid));
    }
  }

  lemma InsertFollows(s: State, n: string)
    requires Core(s) && n !in s.cmds
    ensures Follows(s, Insert(s, n))
  {
    assert ReadySet(Insert(s, n)) == ReadySet(s);
    assert LateSet(Insert(s, n)) == LateSet(s);
    FollowsSame(s, Insert(s, n));
  }

  lemma CreateBcstFollows(s: State)
    requires Core(s)
    ensures Follows(s, s.(flags := s.flags.(bcstflg := true), bcst := Tty(0, "")))
  {
    var t := s.(flags := s.flags.(bcstflg := true), bcst := Tty(0, ""));
    assert ReadySet(t) == ReadySet(s);
    assert LateSet(t) == LateSet(s);
    FollowsSame(s, t);
  }

  lemma MonAddFollows(s: State, n: string, pid: int)
    requires Core(s) && FreshPid(s, pid)
    ensures Follows(s, MonAdd(s, n, pid))
  {
    if n in s.cmds {
      FollowsSelf(s);
    } else {
      var a := Insert(s, n);
      InsertFollows(s, n);
      if !s.flags.bcstflg && |a.cmds| > 1 {
        CreateBcstFollows(a);
        FollowsTwice(s, a, MonAdd(s, n, pid));
      } else if s.bcst.opens > 0 {
        StartFollows(a, n, pid);
        FollowsTwice(s, a, Start(a, n, pid));
      }
    }
  }

  lemma MonDelFollows(s: State, n: string)
    requires Core(s)
    ensures Follows(s, MonDel(s, n))
  {
    if n in s.cmds {
      var a := Stop(s, n, true);
      StopFollows(s, n, true);
      DeleteFollows(a, n);
      FollowsTwice(s, a, QuitIfEmpty(Remove(a, n)));
    } else {
      FollowsSelf(s);
    }
  }

  lemma MonIdleExitFollows(s: State)
    requires Core(s)
    ensures Follows(s, MonIdleExit(s))
  {
    var t := MonIdleExit(s);
    MonIdleExitShape(s);
    assert ReadySet(t) == ReadySet(s);
    assert LateSet(t) == LateSet(s);
    hide Shape, ReadySet, LateSet;
    FollowsSame(s, t);
  }

  lemma MonIdleExitShape(s: State)
    requires Shape(s)
    ensures Shape(MonIdleExit(s))
  {
    var t := MonIdleExit(s);
    assert forall n | n in s.cmds && |s.cmds| != 0 :: t.cmds[n] == s.cmds[n].(deleteonexit := true);
    assert OneChildEach(t);
  }

  lemma NoChildren(s: State)
    requires OneChildEach(s) && forall n | n in s.cmds :: !Running(s.cmds[n])
    ensures s.children == map[]
  {
    assert forall p :: p !in s.children;
  }

  // The table is emptied when nothing runs any more: only late commands can be ready.
  lemma EmptyFollows(s: State)
    requires Core(s) && forall n | n in s.cmds :: !Running(s.cmds[n])
    ensures Follows(s, s.(cmds := map[], order := [], flags := s.flags.(exited := true)))
  {
    var t := s.(cmds := map[], order := [], flags := s.flags.(exited := true));
    NoChildren(s);
    assert ReadySet(s) == LateSet(s);
    assert ReadySet(t) == {} && LateSet(t) == {};
    assert LateSet(s) - LateSet(t) == LateSet(s);
  }

  // After cleanup no child remains.
  lemma CleanupInv(s: State)
    requires Core(s)
    ensures Follows(s, Cleanup(s)) && Core(Cleanup(s))
    ensures Cleanup(s).children == map[]
  {
    var a := StopAll(s, s.order, true);
    StopAllFollows(s, s.order, true);
    NoChildren(a);
    EmptyFollows(a);
    FollowsTwice(s, a, Cleanup(s));
  }

  lemma StepFollows(s: State, e: Event)
    requires Core(s) && Enabled(s, e)
    ensures if e.CmdEvent? then Reads(s, Step(s, e), LateReady(s, e), e.name) else Follows(s, Step(s, e))
  {
    hide Core, Follows, Reads, Read;
    match e
    case CmdWrite(n, b) => WrittenFollows(s, n, b);
    case CmdEvent(n) => ReadFollows(s, n);
    case CmdNotify(_, _) => FollowsSelf(s);
    case CltOpen(n, pid) => CltNotifyFollows(s, n, pid);
    case CltClose(n) => CltNotifyFollows(s, n, NOPID);
    case CltWrite(n, c) => CltWrittenFollows(s, n, c);
    case CltEvent(n, due) => CltReadableFollows(s, n, due);
    case BcstOpen(pids) => BcstNotifyOpenFollows(s, pids);
    case BcstClose => BcstNotifyCloseFollows(s);
    case BcstWrite(c) => SetBcstFollows(s, s.bcst.(inq := s.bcst.inq + [c]));
    case BcstEvent(due) => BcstReadableFollows(s, due);
    case Exit(n, pid) => PidEventFollows(s, n, pid);
    case Add(n, pid) => MonAddFollows(s, n, pid);
    case Del(n) => MonDelFollows(s, n);
    case IdleExit => MonIdleExitFollows(s);
    case Terminate => CleanupInv(s);
  }

  lemma BcstReadableFollows(s: State, due: bool)
    requires Core(s) && s.flags.bcstflg && s.bcst.inq != ""
    ensures Follows(s, BcstReadable(s, due))
  {
    if BcstBlocked(s) || !due { FollowsSelf(s); } else { SetBcstFollows(s, s.bcst.(inq := s.bcst.inq[1..])); }
  }

  // Every step keeps one child for each running command and none for the others, with
  // starts and reaped terminations alternating; and the global count is never below the
  // number of ready commands, so its decrements stay non-negative.
  lemma StepCore(s: State, e: Event)
    requires Core(s) && Enabled(s, e)
    ensures Core(Step(s, e))
  {
    StepFollows(s, e);
    hide Step, Core;
  }

  // The commands whose late match a step forgets: they are started or deleted.
  ghost function Forgotten(s: State, e: Event): set<string>
    requires Enabled(s, e)
  {
    LateSet(s) - LateSet(Step(s, e))
  }

  // A step moves the global count with the number of ready commands, except by those.
  lemma StepGap(s: State, e: Event)
    requires Core(s) && Enabled(s, e)
    ensures Gap(Step(s, e)) == Gap(s) + |Forgotten(s, e)|
  {
    StepFollows(s, e);
    hide Step, Core, LateSet, Gap;
    if LateReady(s, e) { assert Forgotten(s, e) == {}; }
  }

  // Ready-count agreement. Every step keeps the global count equal to the number of
  // ready commands, all of them running, exactly when it is not a late ready byte.
  lemma StepInv(s: State, e: Event)
    requires Inv(s) && Enabled(s, e)
    ensures Inv(Step(s, e)) <==> !LateReady(s, e)
  {
    StepFollows(s, e);
    StepGap(s, e);
    hide Step, Core, LateSet, Gap;
    assert Forgotten(s, e) == {};
  }
}
