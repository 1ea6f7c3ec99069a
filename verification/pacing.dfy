// Pacing (tty.c:346-359, cmd.c:386, main.c:472-476, main.c:598-600): a byte for a
// command is read from its client tty only when its delay has passed since the last
// byte delivered to it, and from the broadcast tty only when that holds of the slowest
// command. Commands are only added; each handler call happens at one time.
module Pacing {
  import opened Text
  import opened Ttys

  // A byte delivered to a command: when, from where, and under which slowest command,
  // which had its own tty open to take the byte or not.
  datatype Write = Write(d: Delivery, slowest: Option<string>, stamped: bool)

  // cmd_t: delay, lastwrite, whether cmdtty.opens is non-zero; and what was delivered.
  datatype Lane = Lane(delay: real, last: real, open: bool, log: seq<Write>)

  datatype State = State(lanes: map<string, Lane>, slowest: Option<string>, clock: real)

  datatype Event =
    | Added(name: string, delay: real)   // GBLSAddCmd
    | Opened(name: string, open: bool)   // the process opens or closes its tty
    | FromClient(name: string)           // a byte waits at the client tty of a ready command
    | FromBcst                           // a byte waits at the broadcast tty, all are ready
    | Stopping(name: string)             // one byte of the stop string

  const Init := State(map[], None, 0.0)

  // cmdWriteChar: delivered and stamped, or discarded.
  function Put(l: Lane, w: Write): Lane {
    if l.open then l.(last := w.d.at, log := l.log + [w]) else l
  }

  // Is the slowest command's tty open?
  predicate Stamps(s: State) {
    s.slowest.Some? && s.slowest.value in s.lanes && s.lanes[s.slowest.value].open
  }

  function WriteOf(s: State, kind: Kind, now: real): Write {
    Write(Delivery(now, kind), s.slowest, Stamps(s))
  }

  function PutAll(s: State, now: real): map<string, Lane> {
    map n | n in s.lanes :: Put(s.lanes[n], WriteOf(s, Bcst, now))
  }

  function Step(s: State, e: Event, now: real): State {
    var s := s.(clock := now);
    match e
    case Added(n, delay) =>
      if n in s.lanes then s
      else s.(lanes := s.lanes[n := Lane(delay, 0.0, false, [])],
              slowest := if s.slowest.Some? && s.slowest.value in s.lanes && delay <= s.lanes[s.slowest.value].delay
                         then s.slowest else Some(n))
    case Opened(n, open) =>
      if n in s.lanes then s.(lanes := s.lanes[n := s.lanes[n].(open := open)]) else s
    case FromClient(n) =>
      if n in s.lanes && Due(s.lanes[n].last, s.lanes[n].delay, now) then
        s.(lanes := s.lanes[n := Put(s.lanes[n], WriteOf(s, Client, now))])
      else s
    case FromBcst =>
      if s.slowest.Some? && s.slowest.value in s.lanes
         && Due(s.lanes[s.slowest.value].last, s.lanes[s.slowest.value].delay, now) then
        s.(lanes := PutAll(s, now))
      else s
    case Stopping(n) =>
      if n in s.lanes then s.(lanes := s.lanes[n := Put(s.lanes[n], WriteOf(s, StopString, now))]) else s
  }

  // ---- What is promised ----

  // Of a pair of deliveries to command n: the later one is a client byte, or a broadcast
  // byte while n itself was the slowest command.
  predicate Owned(n: string, w: Write) {
    w.d.kind == Client || (w.d.kind == Bcst && w.slowest == Some(n))
  }

  // Or both are broadcast bytes under one slowest command that took the first of them.
  predicate Shared(v: Write, w: Write) {
    v.d.kind == Bcst && w.d.kind == Bcst && v.slowest == w.slowest && v.stamped
  }

  ghost predicate Spaced(n: string, l: Lane) {
    forall i, j | 0 <= i < j < |l.log| && (Owned(n, l.log[j]) || Shared(l.log[i], l.log[j])) ::
      l.log[j].d.at - l.log[i].d.at >= l.delay
  }

  // ---- What is kept ----

  // Deliveries are in order, and the timestamp is that of the last one.
  ghost predicate Stamped(l: Lane, clock: real) {
    && (forall i, j | 0 <= i < j < |l.log| :: l.log[i].d.at <= l.log[j].d.at)
    && l.last <= clock
    && (l.log != [] ==> l.last == l.log[|l.log| - 1].d.at)
  }

  // No command is slower than the slowest.
  ghost predicate SlowestIsMax(s: State) {
    && (s.slowest.None? <==> s.lanes == map[])
    && (s.slowest.Some? ==> s.slowest.value in s.lanes)
    && (s.slowest.Some? ==> forall n | n in s.lanes :: s.lanes[n].delay <= s.lanes[s.slowest.value].delay)
  }

  // A broadcast byte that the present slowest command took is covered by its timestamp.
  ghost predicate Covered(s: State, l: Lane) {
    forall i | 0 <= i < |l.log| && l.log[i].d.kind == Bcst && l.log[i].stamped && l.log[i].slowest == s.slowest ::
      s.slowest.Some? && s.slowest.value in s.lanes && l.log[i].d.at <= s.lanes[s.slowest.value].last
  }

  // The slowest command of a past delivery was added before and is not slower.
  ghost predicate Known(s: State, l: Lane) {
    forall i | 0 <= i < |l.log| && l.log[i].slowest.Some? :: l.log[i].slowest.value in s.lanes
  }

  ghost predicate LaneOK(s: State, n: string)
    requires n in s.lanes
  {
    var l := s.lanes[n];
    Stamped(l, s.clock) && Spaced(n, l) && Covered(s, l) && Known(s, l)
  }

  ghost predicate Inv(s: State) {
    0.0 <= s.clock && SlowestIsMax(s) && forall n | n in s.lanes :: LaneOK(s, n)
  }

  ghost predicate Run(s: State, es: seq<(Event, real)>, t: State)
    decreases |es|
  {
    if es == [] then t == s
    else s.clock <= es[0].1 && Run(Step(s, es[0].0, es[0].1), es[1..], t)
  }

  // One more delivery.
  lemma PutOK(s: State, n: string, w: Write)
    requires Inv(s) && n in s.lanes && s.clock <= w.d.at && w == WriteOf(s, w.d.kind, w.d.at)
    requires w.d.kind == Client ==> Due(s.lanes[n].last, s.lanes[n].delay, w.d.at)
    requires w.d.kind == Bcst ==>
      s.slowest.Some? && Due(s.lanes[s.slowest.value].last, s.lanes[s.slowest.value].delay, w.d.at)
    ensures var l := Put(s.lanes[n], w); Stamped(l, w.d.at) && Spaced(n, l)
  {
    var l := s.lanes[n];
    assert LaneOK(s, n);
    if l.open {
      var l', k := Put(l, w), |l.log|;
      forall i | 0 <= i < k && (Owned(n, w) || Shared(l.log[i], w)) ensures w.d.at - l.log[i].d.at >= l.delay {
        assert l.log[i].d.at <= l.last;
      }
      assert forall i | 0 <= i < k :: l'.log[i] == l.log[i];
    }
  }

  // From s to t: time passes, commands stay, and the slowest command's timestamp only
  // grows unless a new command takes its place.
  ghost predicate Advances(s: State, t: State) {
    && s.clock <= t.clock && s.lanes.Keys <= t.lanes.Keys
    && if t.slowest == s.slowest
       then s.slowest.Some? && s.slowest.value in s.lanes ==>
            s.lanes[s.slowest.value].last <= t.lanes[s.slowest.value].last
       else t.slowest.Some? && t.slowest.value !in s.lanes
  }

  lemma LaneKept(s: State, t: State, n: string)
    requires Inv(s) && Advances(s, t) && n in s.lanes && t.lanes[n].log == s.lanes[n].log
    requires t.lanes[n] == s.lanes[n].(open := t.lanes[n].open)
    ensures LaneOK(t, n)
  {
    assert LaneOK(s, n);
  }

  lemma RestPut(s: State, t: State, l: Lane, w: Write)
    requires SlowestIsMax(s) && Advances(s, t) && t.slowest == s.slowest && Covered(s, l) && Known(s, l)
    requires w.slowest == s.slowest
    requires w.d.kind == Bcst && w.stamped ==> s.slowest.Some? && t.lanes[s.slowest.value].last == w.d.at
    ensures Covered(t, Put(l, w)) && Known(t, Put(l, w))
  {
    if l.open {
      assert forall i | 0 <= i < |l.log| :: Put(l, w).log[i] == l.log[i];
    }
  }

  lemma LanePut(s: State, t: State, n: string, w: Write)
    requires Inv(s) && Advances(s, t) && t.slowest == s.slowest && n in s.lanes && t.clock == w.d.at
    requires w == WriteOf(s, w.d.kind, w.d.at) && t.lanes[n] == Put(s.lanes[n], w)
    requires w.d.kind == Client ==> Due(s.lanes[n].last, s.lanes[n].delay, w.d.at)
    requires w.d.kind == Bcst ==>
      s.slowest.Some? && Due(s.lanes[s.slowest.value].last, s.lanes[s.slowest.value].delay, w.d.at)
    requires w.d.kind == Bcst && w.stamped ==> t.lanes[s.slowest.value].last == w.d.at
    ensures LaneOK(t, n)
  {
    PutOK(s, n, w);
    assert LaneOK(s, n);
    RestPut(s, t, s.lanes[n], w);
    hide Spaced, Stamped, Covered, Known, Inv, Advances, SlowestIsMax, Put, WriteOf, Due;
  }

  lemma LastGrows(s: State, n: string, w: Write)
    requires Inv(s) && n in s.lanes && s.clock <= w.d.at
    ensures s.lanes[n].last <= Put(s.lanes[n], w).last
  {
    assert LaneOK(s, n);
  }

  // One lane takes one byte from its client or of its stop string.
  lemma PutInv(s: State, n: string, kind: Kind, now: real)
    requires Inv(s) && s.clock <= now && n in s.lanes && kind != Bcst
    requires kind == Client ==> Due(s.lanes[n].last, s.lanes[n].delay, now)
    ensures Inv(s.(clock := now, lanes := s.lanes[n := Put(s.lanes[n], WriteOf(s, kind, now))]))
  {
    var w := WriteOf(s, kind, now);
    var t := s.(clock := now, lanes := s.lanes[n := Put(s.lanes[n], w)]);
    LastGrows(s, n, w);
    assert Advances(s, t);
    assert SlowestIsMax(t);
    hide *;
    forall m | m in t.lanes ensures LaneOK(t, m) {
      if m == n { LanePut(s, t, n, w); } else { LaneKept(s, t, m); }
    }
    InvFrom(t);
  }

  lemma InvFrom(s: State)
    requires 0.0 <= s.clock && SlowestIsMax(s) && forall n | n in s.lanes :: LaneOK(s, n)
    ensures Inv(s)
  {}

  lemma PutAllInv(s: State, now: real)
    requires Inv(s) && s.clock <= now && s.slowest.Some?
    requires Due(s.lanes[s.slowest.value].last, s.lanes[s.slowest.value].delay, now)
    ensures Inv(s.(clock := now, lanes := PutAll(s, now)))
  {
    var w := WriteOf(s, Bcst, now);
    var t := s.(clock := now, lanes := PutAll(s, now));
    LastGrows(s, s.slowest.value, w);
    assert Advances(s, t);
    assert SlowestIsMax(t);
    forall m | m in t.lanes ensures LaneOK(t, m) {
      assert t.lanes[m] == Put(s.lanes[m], w);
      LanePut(s, t, m, w);
    }
  }

  // The timestamp of the slowest command is its own, so a command added with a larger
  // delay takes over the pacing.
  lemma AddedInv(s: State, n: string, delay: real, now: real)
    requires Inv(s) && s.clock <= now
    ensures Inv(Step(s, Added(n, delay), now))
  {
    var t := Step(s, Added(n, delay), now);
    assert Advances(s, t);
    assert SlowestIsMax(t);
    forall m | m in t.lanes ensures LaneOK(t, m) {
      if m in s.lanes { LaneKept(s, t, m); }
    }
  }

  lemma OpenedInv(s: State, n: string, open: bool, now: real)
    requires Inv(s) && s.clock <= now
    ensures Inv(Step(s, Opened(n, open), now))
  {
    var t := Step(s, Opened(n, open), now);
    assert Advances(s, t);
    assert SlowestIsMax(t);
    forall m | m in t.lanes ensures LaneOK(t, m) { LaneKept(s, t, m); }
  }

  lemma StepInv(s: State, e: Event, now: real)
    requires Inv(s) && s.clock <= now
    ensures Inv(Step(s, e, now)) && Step(s, e, now).clock == now
  {
    match e {
      case Added(n, delay) => AddedInv(s, n, delay, now);
      case Opened(n, open) => OpenedInv(s, n, open, now);
      case FromClient(n) =>
        if n in s.lanes && Due(s.lanes[n].last, s.lanes[n].delay, now) { PutInv(s, n, Client, now); } else { Idle(s, now); }
      case FromBcst =>
        if s.slowest.Some? && Due(s.lanes[s.slowest.value].last, s.lanes[s.slowest.value].delay, now) {
          PutAllInv(s, now);
        } else {
          Idle(s, now);
        }
      case Stopping(n) =>
        if n in s.lanes { PutInv(s, n, StopString, now); } else { Idle(s, now); }
    }
  }

  lemma Idle(s: State, now: real)
    requires Inv(s) && s.clock <= now
    ensures Inv(s.(clock := now))
  {
    var t := s.(clock := now);
    forall m | m in t.lanes ensures LaneOK(t, m) { LaneKept(s, t, m); }
  }

  lemma {:induction false} RunInv(s: State, es: seq<(Event, real)>, t: State)
    requires Inv(s) && Run(s, es, t)
    ensures Inv(t)
    decreases |es|
  {
    if es != [] {
      StepInv(s, es[0].0, es[0].1);
      hide Inv, Step;
      RunInv(Step(s, es[0].0, es[0].1), es[1..], t);
    }
  }

  // In every run that only adds commands the slowest command has the largest delay; each
  // client byte comes at least the command's delay after every earlier byte delivered to
  // it, and so does each broadcast byte while the command is the slowest; and between
  // broadcast bytes every command's own delay passes, as long as one command stays the
  // slowest and takes them.
  lemma Paced(es: seq<(Event, real)>, t: State)
    requires Run(Init, es, t)
    ensures SlowestIsMax(t)
    ensures forall n | n in t.lanes :: Spaced(n, t.lanes[n])
  {
    RunInv(Init, es, t);
    assert forall n | n in t.lanes :: LaneOK(t, n);
  }

  // A second broadcast byte gets through before the slowest command's delay is over exactly
  // when that command's own tty was not open to take the first.
  lemma BackToBack(s: State, now: real, later: real)
    requires Inv(s) && s.slowest.Some? && s.clock <= now <= later
    requires var l := s.lanes[s.slowest.value]; Due(l.last, l.delay, now) && later - now < l.delay
    ensures var t := Step(s, FromBcst, now); var l := t.lanes[s.slowest.value];
      Due(l.last, l.delay, later) <==> !Stamps(s)
  {}

  // Pacing holds a byte back for the delay and no longer: a byte that waits at the client
  // tty of an open command is delivered exactly when the delay has passed since the last
  // delivery or there is none, and to that command alone.
  lemma ClientIff(s: State, n: string, now: real)
    requires n in s.lanes && s.lanes[n].open
    ensures var l, t := s.lanes[n], Step(s, FromClient(n), now);
      && t.lanes.Keys == s.lanes.Keys && (forall m | m in s.lanes && m != n :: t.lanes[m] == s.lanes[m])
      && if l.delay <= 0.0 || now - l.last >= l.delay then
           |t.lanes[n].log| == |l.log| + 1 && t.lanes[n].log[..|l.log|] == l.log
           && t.lanes[n].log[|l.log|].d == Delivery(now, Client) && t.lanes[n].last == now
         else t.lanes[n] == l
  {}

  // And a byte that waits at the broadcast tty is delivered to every open command exactly
  // when that holds of the slowest command.
  lemma BcstIff(s: State, now: real)
    requires s.slowest.Some? && s.slowest.value in s.lanes
    ensures var slow, t := s.lanes[s.slowest.value], Step(s, FromBcst, now);
      && t.lanes.Keys == s.lanes.Keys
      && forall n | n in s.lanes ::
           var l := s.lanes[n];
           if l.open && (slow.delay <= 0.0 || now - slow.last >= slow.delay) then
             |t.lanes[n].log| == |l.log| + 1 && t.lanes[n].log[..|l.log|] == l.log
             && t.lanes[n].log[|l.log|].d == Delivery(now, Bcst) && t.lanes[n].last == now
           else t.lanes[n] == l
  {}

  // ---- Client and broadcast bytes together ----

  predicate AddFree(es: seq<(Event, real)>) {
    forall e | e in es :: !e.0.Added?
  }

  // Everything delivered to l from entry was on, stop strings excepted, comes at least the
  // delay after all that was delivered before it.
  ghost predicate Gaps(l: Lane, was: nat) {
    forall i, j | 0 <= i < j < |l.log| && was <= j && l.log[j].d.kind != StopString ::
      l.log[j].d.at - l.log[i].d.at >= l.delay
  }

  // No command comes, and what is delivered carries the present slowest command.
  ghost predicate Extends(s: State, t: State) {
    && t.slowest == s.slowest && t.lanes.Keys == s.lanes.Keys
    && forall n | n in s.lanes ::
         && t.lanes[n].delay == s.lanes[n].delay && s.lanes[n].log <= t.lanes[n].log
         && forall j | |s.lanes[n].log| <= j < |t.lanes[n].log| :: t.lanes[n].log[j].slowest == s.slowest
  }

  lemma StepExtends(s: State, e: Event, now: real)
    requires !e.Added?
    ensures Extends(s, Step(s, e, now))
  {}

  lemma ExtendsTwice(s: State, t: State, u: State)
    requires Extends(s, t) && Extends(t, u)
    ensures Extends(s, u)
  {
    forall n | n in s.lanes
      ensures s.lanes[n].log <= u.lanes[n].log
      ensures forall j | |s.lanes[n].log| <= j < |u.lanes[n].log| :: u.lanes[n].log[j].slowest == s.slowest
    {
      assert s.lanes[n].log <= t.lanes[n].log <= u.lanes[n].log;
      forall j | |s.lanes[n].log| <= j < |u.lanes[n].log| ensures u.lanes[n].log[j].slowest == s.slowest {
        if j < |t.lanes[n].log| { assert u.lanes[n].log[j] == t.lanes[n].log[j]; }
      }
    }
  }

  lemma {:induction false} RunExtends(s: State, es: seq<(Event, real)>, t: State)
    requires Run(s, es, t) && AddFree(es)
    ensures Extends(s, t)
    decreases |es|
  {
    if es != [] {
      var u := Step(s, es[0].0, es[0].1);
      assert es[0] in es;
      StepExtends(s, es[0].0, es[0].1);
      hide Step, Extends;
      RunExtends(u, es[1..], t);
      ExtendsTwice(s, u, t);
    }
  }

  lemma SlowestGaps(s: State, es: seq<(Event, real)>, t: State, n: string)
    requires Inv(s) && Run(s, es, t) && AddFree(es) && n in s.lanes
    requires s.slowest == Some(n) || s.lanes[n].delay <= 0.0
    ensures n in t.lanes && Gaps(t.lanes[n], |s.lanes[n].log|)
  {
    RunInv(s, es, t);
    RunExtends(s, es, t);
    assert n in t.lanes && LaneOK(t, n);
  }

  // A moment at which every delay is over, its client byte, and a broadcast byte with it.
  lemma OthersCrowd(s: State, n: string) returns (es: seq<(Event, real)>, t: State)
    requires Inv(s) && n in s.lanes && s.slowest != Some(n) && s.lanes[n].delay > 0.0
    ensures Run(s, es, t) && AddFree(es) && n in t.lanes && !Gaps(t.lanes[n], |s.lanes[n].log|)
  {
    var slow := s.slowest.value;
    var now := s.clock + s.lanes[slow].delay;
    assert LaneOK(s, n) && LaneOK(s, slow);
    var s1 := Step(s, Opened(n, true), now);
    var s2 := Step(s1, FromClient(n), now);
    t := Step(s2, FromBcst, now);
    es := [(Opened(n, true), now), (FromClient(n), now), (FromBcst, now)];
    assert Run(t, es[3..], t);
    assert es[2..][1..] == es[3..] && Run(s2, es[2..], t);
    assert es[1..][1..] == es[2..] && Run(s1, es[1..], t);
    var k, log := |s.lanes[n].log|, t.lanes[n].log;
    assert |log| == k + 2 && log[k].d == Delivery(now, Client) && log[k + 1].d == Delivery(now, Bcst);
  }

  // Whatever clients and the broadcast tty send while no command is added, a command's
  // delay passes before each byte exactly when it is the slowest command or has no delay.
  lemma MixedIff(s: State, n: string)
    requires Inv(s) && n in s.lanes
    ensures (forall es, t | Run(s, es, t) && AddFree(es) :: n in t.lanes && Gaps(t.lanes[n], |s.lanes[n].log|))
      <==> s.slowest == Some(n) || s.lanes[n].delay <= 0.0
  {
    hide *;
    if s.slowest == Some(n) || s.lanes[n].delay <= 0.0 {
      forall es, t | Run(s, es, t) && AddFree(es) ensures n in t.lanes && Gaps(t.lanes[n], |s.lanes[n].log|) {
        SlowestGaps(s, es, t, n);
      }
    } else {
      var es, t := OthersCrowd(s, n);
    }
  }
}
