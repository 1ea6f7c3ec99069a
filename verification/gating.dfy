// Who is told that a command is ready: the count of ready commands over whole runs, and
// which process the matched ready string came from.
module Gating {
  import opened Text
  import opened Lifecycle
  import opened Promises
  import Ready

  // ---- The global count ----

  // How often, along a run, a command was started or deleted after a late match.
  ghost function Drift(s: State, evs: seq<Event>): nat
    requires Admitted(s, evs)
  {
    if evs == [] then 0
    else Drift(s, evs[..|evs| - 1]) + |Forgotten(Run(s, evs[..|evs| - 1]), evs[|evs| - 1])|
  }

  // In every run the global count is the number of ready commands plus the drift, so it is
  // never negative and every decrement starts above zero.
  lemma {:induction false} CountDrift(s: State, evs: seq<Event>)
    requires Init(s) && Admitted(s, evs)
    ensures Core(Run(s, evs))
    ensures Run(s, evs).cmdsreadycnt == |ReadySet(Run(s, evs))| + Drift(s, evs)
  {
    InitInv(s);
    if evs != [] {
      var front, e := evs[..|evs| - 1], evs[|evs| - 1];
      CountDrift(s, front);
      StepCore(Run(s, front), e);
      StepGap(Run(s, front), e);
    }
  }

  // The assert that the count stays within the table (cmd.c:81) fails exactly when a
  // command's match completes while no more commands are unready than matches have been
  // forgotten; so never before the first of those.
  lemma UpperAssert(s: State, evs: seq<Event>, e: Event)
    requires Init(s) && Admitted(s, evs) && Enabled(Run(s, evs), e)
    ensures var t := Run(s, evs);
      Step(t, e).flags.aborted <==>
        && e.CmdEvent? && Completing(ReadyStr(t), t.cmds[e.name])
        && |t.cmds| - |ReadySet(t)| <= Drift(s, evs)
    ensures Drift(s, evs) == 0 ==> !Step(Run(s, evs), e).flags.aborted
  {
    var t := Run(s, evs);
    CountDrift(s, evs);
    AbortedBy(t, e);
    hide Run, Step, Drift, ReadySet, Core;
    if e.CmdEvent? && Completing(ReadyStr(t), t.cmds[e.name]) { Unready(t, e.name); }
  }

  // A command that completes its match is not among the ready ones yet.
  lemma Unready(s: State, n: string)
    requires n in s.cmds && Completing(ReadyStr(s), s.cmds[n])
    ensures |ReadySet(s)| < |s.cmds|
  {
    var rest := s.cmds.Keys - {n};
    Subset(ReadySet(s), rest);
    assert s.cmds.Keys == rest + {n};
  }

  lemma AbortedBy(t: State, e: Event)
    requires Core(t) && Enabled(t, e)
    ensures Step(t, e).flags.aborted <==> e.CmdEvent? && Fires(t, e.name)
  {
    StepEffect(t, e);
    if !e.CmdEvent? {
      hide Step, Core;
    }
  }

  // ---- The match ----

  // The bytes that the match counter stands for: the ones of the running match, or those
  // that completed it.
  function Matched(ready: string, seen: seq<Byte>): (r: seq<Byte>)
    ensures |r| <= |ready| || r == []
  {
    if seen == [] then []
    else
      var m, b := Matched(ready, seen[..|seen| - 1]), seen[|seen| - 1];
      if |m| >= |ready| then m
      else if ready[|m|] == b.c then m + [b]
      else []
  }

  lemma MatchedNext(ready: string, front: seq<Byte>, b: Byte)
    requires |Matched(ready, front)| == Ready.Match(ready, Chars(front)) <= |ready|
    requires Chars(Matched(ready, front)) == ready[..|Matched(ready, front)|]
    ensures var m, n := Matched(ready, front), Matched(ready, front + [b]);
      && n == (if |m| >= |ready| then m else if ready[|m|] == b.c then m + [b] else [])
      && |n| == Ready.Match(ready, Chars(front + [b])) <= |ready| && Chars(n) == ready[..|n|]
  {
    var m := Matched(ready, front);
    assert (front + [b])[..|front|] == front;
    CharsSnoc(front, b);
    CharsSnoc(m, b);
    assert Chars([]) == "";
    Ready.MatchSnoc(ready, 0, Chars(front), b.c);
    assert Matched(ready, front + [b]) == if |m| >= |ready| then m else if ready[|m|] == b.c then m + [b] else [];
    hide Chars, Ready.MatchFrom, Matched;
  }

  lemma CharsSnoc(bs: seq<Byte>, b: Byte)
    ensures Chars(bs + [b]) == Chars(bs) + [b.c]
  {}

  // They are a stretch of what was read, and spell the beginning of the ready string.
  lemma {:induction false} MatchedIs(ready: string, seen: seq<Byte>) returns (a: seq<Byte>, z: seq<Byte>)
    ensures seen == a + Matched(ready, seen) + z
    ensures |Matched(ready, seen)| == Ready.Match(ready, Chars(seen)) <= |ready|
    ensures Chars(Matched(ready, seen)) == ready[..|Matched(ready, seen)|]
    ensures |Matched(ready, seen)| < |ready| ==> z == []
  {
    if seen == [] {
      a, z := [], [];
    } else {
      var front, b := seen[..|seen| - 1], seen[|seen| - 1];
      a, z := MatchedIs(ready, front);
      MatchedNext(ready, front, b);
      assert front + [b] == seen;
      var m := Matched(ready, front);
      if |m| >= |ready| {
        z := z + [b];
      } else if ready[|m|] != b.c {
        a := seen;
      }
    }
  }

  // What one writer wrote of it.
  function Own(bs: seq<Byte>, writer: nat): string {
    if bs == [] then ""
    else
      var front, b := Own(bs[..|bs| - 1], writer), bs[|bs| - 1];
      if b.writer == writer then front + [b.c] else front
  }

  lemma {:induction false} OwnConcat(a: seq<Byte>, b: seq<Byte>, writer: nat)
    ensures Own(a + b, writer) == Own(a, writer) + Own(b, writer)
  {
    if b == [] {
      assert a + b == a;
    } else {
      OwnConcat(a, b[..|b| - 1], writer);
      assert (a + b)[..|a + b| - 1] == a + b[..|b| - 1];
    }
  }

  lemma {:induction false} OwnAll(bs: seq<Byte>, writer: nat)
    requires forall b | b in bs :: b.writer == writer
    ensures Own(bs, writer) == Chars(bs)
  {
    if bs != [] {
      OwnAll(bs[..|bs| - 1], writer);
      assert Chars(bs) == Chars(bs[..|bs| - 1]) + [bs[|bs| - 1].c];
    }
  }

  // A full match whose bytes all come from one writer is an occurrence in what it wrote.
  lemma OwnMatch(ready: string, seen: seq<Byte>, writer: nat)
    requires Ready.Match(ready, Chars(seen)) == |ready|
    requires forall b | b in Matched(ready, seen) :: b.writer == writer
    ensures Ready.Occurs(ready, Own(seen, writer))
  {
    var m := Matched(ready, seen);
    var a, z := MatchedIs(ready, seen);
    OwnConcat(a + m, z, writer);
    OwnConcat(a, m, writer);
    OwnAll(m, writer);
    assert ready[..|m|] == ready;
    assert Own(seen, writer) == Own(a, writer) + ready + Own(z, writer);
    assert Ready.OccursAt(ready, Own(seen, writer), |Own(a, writer)|);
  }

  // ---- Whose match it is ----

  // Only a running command is ready, and every byte of its match is its own process's.
  ghost predicate OwnCmd(ready: string, c: Cmd) {
    if Running(c) then forall b | b in Matched(ready, c.seen) :: b.writer == |c.life|
    else !Counts(ready, c)
  }

  ghost predicate OwnOnly(s: State) {
    forall n | n in s.cmds :: OwnCmd(ReadyStr(s), s.cmds[n])
  }

  // The next byte is matched (cmd.c:74) though the running process did not write it; for a
  // command that is not running, it completes the match.
  predicate StaleMatch(s: State, e: Event) {
    && e.CmdEvent? && e.name in s.cmds && s.cmds[e.name].queue != []
    && var ready, c := ReadyStr(s), s.cmds[e.name];
       var b := c.queue[0];
       if Running(c) then b.writer != |c.life| && c.readycnt < |ready| && ready[c.readycnt] == b.c
       else Completing(ready, c)
  }

  // What any other step makes of a command: nothing that concerns the match, or it has
  // just been started, or it is down and not ready.
  ghost predicate Unmoved(ready: string, o: Cmd, c: Cmd) {
    c.pid == o.pid && c.readycnt == o.readycnt && c.seen == o.seen && c.life == o.life
  }

  ghost predicate FreshOrDown(ready: string, c: Cmd) {
    if Running(c) then c.seen == [] else !Counts(ready, c)
  }

  ghost predicate Changes(s: State, t: State) {
    && ReadyStr(t) == ReadyStr(s)
    && forall n | n in t.cmds ::
         FreshOrDown(ReadyStr(s), t.cmds[n]) || (n in s.cmds && Unmoved(ReadyStr(s), s.cmds[n], t.cmds[n]))
  }

  lemma ChangesTwice(s: State, t: State, u: State)
    requires Changes(s, t) && Changes(t, u)
    ensures Changes(s, u)
  {}

  lemma ChangesOwn(s: State, t: State)
    requires OwnOnly(s) && Changes(s, t)
    ensures OwnOnly(t)
  {}

  lemma {:induction false} StartAllChanges(s: State, order: seq<string>, pids: map<string, int>)
    ensures Changes(s, StartAll(s, order, pids))
  {
    if order != [] {
      var n, front := order[|order| - 1], StartAll(s, order[..|order| - 1], pids);
      StartAllChanges(s, order[..|order| - 1], pids);
      if n in s.cmds && n in pids {
        assert Changes(front, Start(front, n, pids[n]));
        ChangesTwice(s, front, Start(front, n, pids[n]));
      }
    }
  }

  lemma {:induction false} StopAllChanges(s: State, order: seq<string>, force: bool)
    ensures Changes(s, StopAll(s, order, force))
  {
    if order != [] {
      var n, front := order[|order| - 1], StopAll(s, order[..|order| - 1], force);
      StopAllChanges(s, order[..|order| - 1], force);
      if n in s.cmds {
        assert Changes(front, Stop(front, n, force));
        ChangesTwice(s, front, Stop(front, n, force));
      }
    }
  }

  lemma CltChanges(s: State, e: Event)
    requires Enabled(s, e) && (e.CltOpen? || e.CltClose? || e.CltWrite? || e.CltEvent?)
    ensures Changes(s, Step(s, e))
  {}

  lemma BcstChanges(s: State, e: Event)
    requires Enabled(s, e) && (e.BcstOpen? || e.BcstClose? || e.BcstWrite? || e.BcstEvent?)
    ensures Changes(s, Step(s, e))
  {
    if e.BcstOpen? { StartAllChanges(s.(bcst := Opened(s.bcst)), s.order, e.pids); }
    if e.BcstClose? { StopAllChanges(s.(bcst := Closed(s.bcst)), s.order, false); }
  }

  lemma TableChanges(s: State, e: Event)
    requires Enabled(s, e) && (e.CmdWrite? || e.CmdNotify? || e.Add? || e.IdleExit? || e.Terminate?)
    ensures Changes(s, Step(s, e))
  {
    if e.Terminate? { StopAllChanges(s, s.order, true); }
  }

  lemma ReapChanges(s: State, n: string)
    requires n in s.cmds
    ensures Changes(s, Reap(s, n))
  {}

  lemma RemoveChanges(s: State, n: string)
    ensures Changes(s, QuitIfEmpty(Remove(s, n)))
  {}

  lemma StartChanges(s: State, n: string, pid: int)
    requires n in s.cmds && pid != NOPID
    ensures Changes(s, Start(s, n, pid))
  {}

  lemma ExitChanges(s: State, n: string, pid: int)
    requires n in s.cmds && pid != NOPID
    ensures Changes(s, PidEvent(s, n, pid))
  {
    var t := Reap(s, n);
    assert n in t.cmds;
    ReapChanges(s, n);
    RemoveChanges(t, n);
    StartChanges(t, n, pid);
    hide Changes, Reap, Remove, QuitIfEmpty, Start;
    ChangesTwice(s, t, PidEvent(s, n, pid));
  }

  lemma DelChanges(s: State, n: string)
    ensures Changes(s, MonDel(s, n))
  {
    if n in s.cmds {
      var t := Stop(s, n, true);
      ReapChanges(s, n);
      assert Changes(s, t);
      RemoveChanges(t, n);
      hide Changes, Stop, Remove, QuitIfEmpty;
      ChangesTwice(s, t, MonDel(s, n));
    }
  }

  lemma PidsReal(s: State, e: Event)
    requires Enabled(s, e) && Shape(s)
    ensures e.Exit? ==> e.name in s.cmds && e.pid != NOPID
  {}

  lemma StepChanges(s: State, e: Event)
    requires Shape(s) && Enabled(s, e) && !e.CmdEvent?
    ensures Changes(s, Step(s, e))
  {
    PidsReal(s, e);
    hide Changes, Enabled;
    match e
    case CltOpen(_, _) => CltChanges(s, e);
    case CltClose(_) => CltChanges(s, e);
    case CltWrite(_, _) => CltChanges(s, e);
    case CltEvent(_, _) => CltChanges(s, e);
    case BcstOpen(_) => BcstChanges(s, e);
    case BcstClose => BcstChanges(s, e);
    case BcstWrite(_) => BcstChanges(s, e);
    case BcstEvent(_) => BcstChanges(s, e);
    case Exit(n, pid) => ExitChanges(s, n, pid);
    case Del(n) => DelChanges(s, n);
    case _ => TableChanges(s, e);
  }

  lemma TakeOwn(ready: string, c: Cmd)
    requires CmdInv(ready, c) && c.queue != [] && OwnCmd(ready, c)
    ensures OwnCmd(ready, Take(ready, c)) <==>
      !(if Running(c) then
          c.queue[0].writer != |c.life| && c.readycnt < |ready| && ready[c.readycnt] == c.queue[0].c
        else Completing(ready, c))
  {
    var b := c.queue[0];
    var a, z := MatchedIs(ready, c.seen);
    assert (c.seen + [b])[..|c.seen|] == c.seen;
    var m := Matched(ready, c.seen);
    if Running(c) && c.readycnt < |ready| && ready[c.readycnt] == b.c {
      assert b in m + [b];
      assert forall x | x in m + [b] :: x in m || x == b;
    }
  }

  lemma ReadOwn(s: State, n: string)
    requires Shape(s) && n in s.cmds && s.cmds[n].queue != [] && OwnOnly(s)
    ensures OwnOnly(Read(s, n)) <==> !StaleMatch(s, CmdEvent(n))
  {
    var ready, c, t := ReadyStr(s), s.cmds[n], Read(s, n);
    assert CmdInv(ready, c) && OwnCmd(ready, c);
    TakeOwn(ready, c);
    assert t.cmds == s.cmds[n := Take(ready, c)] && ReadyStr(t) == ready;
    hide OwnCmd, Take, Shape, CmdInv, Read;
    assert t.cmds[n] == Take(ready, c);
  }

  // Every step keeps this exactly when it does not match a stale byte.
  lemma StepOwn(s: State, e: Event)
    requires Core(s) && Enabled(s, e) && OwnOnly(s)
    ensures OwnOnly(Step(s, e)) <==> !StaleMatch(s, e)
  {
    if e.CmdEvent? {
      ReadOwn(s, e.name);
    } else {
      StepChanges(s, e);
      ChangesOwn(s, Step(s, e));
    }
  }

  // ---- End-to-end gating ----

  ghost predicate NoStaleMatch(s: State, evs: seq<Event>)
    requires Admitted(s, evs)
  {
    evs == [] || (NoStaleMatch(s, evs[..|evs| - 1])
                  && !StaleMatch(Run(s, evs[..|evs| - 1]), evs[|evs| - 1]))
  }

  // No byte left behind by a stopped process completes the ready string.
  ghost predicate NoLateReady(s: State, evs: seq<Event>)
    requires Admitted(s, evs)
  {
    evs == [] || (NoLateReady(s, evs[..|evs| - 1])
                  && !LateReady(Run(s, evs[..|evs| - 1]), evs[|evs| - 1]))
  }

  lemma {:induction false} AgreeingRun(s: State, evs: seq<Event>)
    requires Init(s) && Admitted(s, evs) && NoLateReady(s, evs)
    ensures Inv(Run(s, evs))
    ensures !Run(s, evs).flags.aborted && Run(s, evs).cmdsreadycnt <= |Run(s, evs).cmds|
  {
    hide Inv;
    if evs == [] {
      InitInv(s);
      InitCalm(s);
    } else {
      var front, e := evs[..|evs| - 1], evs[|evs| - 1];
      AgreeingRun(s, front);
      StepInv(Run(s, front), e);
      AgreeingCalm(Run(s, front), e);
    }
    InvInTable(Run(s, evs));
  }

  lemma InitCalm(s: State)
    requires Init(s)
    ensures !s.flags.aborted
  {}

  lemma InvInTable(s: State)
    requires Inv(s)
    ensures s.cmdsreadycnt <= |s.cmds|
  {
    Subset(ReadySet(s), s.cmds.Keys);
    assert |s.cmds| == |s.cmds.Keys|;
  }

  lemma AgreeingCalm(s: State, e: Event)
    requires Inv(s) && Enabled(s, e)
    ensures !Step(s, e).flags.aborted
  {
    AbortedBy(s, e);
    hide Step, ReadySet, Core, LateSet;
    if e.CmdEvent? && Completing(ReadyStr(s), s.cmds[e.name]) { Unready(s, e.name); }
  }

  lemma {:induction false} OwnRun(s: State, evs: seq<Event>)
    requires Init(s) && Admitted(s, evs) && NoStaleMatch(s, evs)
    ensures OwnOnly(Run(s, evs)) && Core(Run(s, evs)) && NoLateReady(s, evs)
  {
    if evs == [] {
      InitInv(s);
      assert OwnOnly(s);
    } else {
      var front, e := evs[..|evs| - 1], evs[|evs| - 1];
      OwnRun(s, front);
      StaleCoversLate(Run(s, front), e);
      StepOwn(Run(s, front), e);
      StepCore(Run(s, front), e);
      hide OwnOnly, Core;
    }
  }

  lemma StaleCoversLate(s: State, e: Event)
    ensures LateReady(s, e) ==> StaleMatch(s, e)
  {}

  // The commands to which a step writes a client or broadcast byte.
  ghost function Writes(s: State, e: Event): set<string> {
    match e
    case CltEvent(n, due) => if n in s.cmds && IsReady(ReadyStr(s), s.cmds[n]) && due then {n} else {}
    case BcstEvent(due) => if !BcstBlocked(s) && due then s.cmds.Keys else {}
    case _ => {}
  }

  // When broadcast bytes are held back: exactly while some command is not ready, or,
  // with an empty ready string, always (although every command then counts as ready).
  lemma BroadcastGate(s: State)
    requires Core(s) && Agrees(s)
    ensures BcstBlocked(s) <==>
      s.flags.readystr.Some? && s.cmds != map[]
      && (s.flags.readystr.value == "" || exists n :: n in s.cmds && !IsReady(ReadyStr(s), s.cmds[n]))
  {
    Subset(ReadySet(s), s.cmds.Keys);
    if s.flags.readystr.Some? && s.flags.readystr.value == "" {
      assert ReadySet(s) == {};
      assert s.cmds != map[] <==> |s.cmds.Keys| > 0;
    } else if ReadySet(s) != s.cmds.Keys {
      var n :| n in s.cmds.Keys && n !in ReadySet(s);
    }
  }

  // In every run that matches no stale byte, a byte written to a command goes to a running
  // process, and follows a contiguous occurrence of the ready string in what that very
  // process has written.
  lemma Gated(s: State, evs: seq<Event>, e: Event, n: string)
    requires Init(s) && Admitted(s, evs) && NoStaleMatch(s, evs)
    requires ReadyStr(s) != ""
    requires Enabled(Run(s, evs), e) && n in Writes(Run(s, evs), e)
    ensures var c := Run(s, evs).cmds[n];
      Running(c) && Ready.Occurs(ReadyStr(s), Own(c.seen, |c.life|))
  {
    var t := Run(s, evs);
    OwnRun(s, evs);
    AgreeingRun(s, evs);
    InitInv(s);
    PolicyFixed(s, evs);
    GatedAt(t, e, n);
  }

  lemma GatedAt(t: State, e: Event, n: string)
    requires Inv(t) && OwnOnly(t) && ReadyStr(t) != "" && Enabled(t, e) && n in Writes(t, e)
    ensures var c := t.cmds[n]; Running(c) && Ready.Occurs(ReadyStr(t), Own(c.seen, |c.life|))
  {
    if e.BcstEvent? { BroadcastGate(t); }
    var ready, c := ReadyStr(t), t.cmds[n];
    assert IsReady(ready, c) && OwnCmd(ready, c) && CmdInv(ready, c);
    OwnMatch(ready, c.seen, |c.life|);
  }
}
