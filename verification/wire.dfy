// What the commands are sent along a run of lifecycle steps: the bytes themselves, when
// and whether they were delivered, and what is fixed about each command (cmd.h:10-34).
module Wires {
  import opened Text
  import opened Ttys
  import L = Lifecycle

  // The bytes written to a command's tty; of those that were delivered rather than
  // discarded, when and where each came from; the timestamp of the last one; and how often
  // the tty is open, so whether the next one will be delivered.
  datatype Sending = Sending(offered: string, log: seq<Delivery>, last: real, opens: nat) {
    function Plus(text: string, d: Delivery): Sending {
      this.(offered := offered + text, log := log + if opens != 0 then Repeat(d, |text|) else [],
            last := if opens != 0 && text != "" then d.at else last)
    }

    function Notified(isOpen: bool): Sending {
      this.(opens := if isOpen then opens + 1 else if opens > 0 then opens - 1 else 0)
    }

    lemma PlusTwice(a: string, b: string, d: Delivery)
      ensures Plus(a, d).Plus(b, d) == Plus(a + b, d)
    {
      Assoc(offered, a, b);
      assert Repeat(d, |a|) + Repeat(d, |b|) == Repeat(d, |a + b|);
      if opens != 0 { assert (log + Repeat(d, |a|)) + Repeat(d, |b|) == log + Repeat(d, |a + b|); }
    }

    lemma PlusNone(d: Delivery)
      ensures Plus("", d) == this
    {
      assert Repeat(d, 0) == [];
    }
  }

  const Silent := Sending("", [], 0.0, 0)

  function Repeat(d: Delivery, k: nat): seq<Delivery> { seq(k, _ => d) }

  ghost function PlusAll(sents: map<string, Sending>, text: string, d: Delivery): map<string, Sending> {
    map n | n in sents :: sents[n].Plus(text, d)
  }

  // What a command is added with beside its name.
  datatype Request = Request(cmdline: string, stopstr: Option<string>, delay: real)

  // What cmdStop sends before it kills the process (cmd.c:682-707): the command's own stop
  // string or else the global one, after a newline.
  function StopText(own: Option<string>, all: Option<string>): string {
    if own.Some? then "\n" + own.value
    else if all.Some? then "\n" + all.value
    else ""
  }

  // GBLS.slowestcmd, which keeps pointing to a command that has been deleted.
  datatype Slow = Slow(name: string, delay: real, listed: bool)

  datatype Wire = Wire(sents: map<string, Sending>, specs: map<string, Request>, slow: Option<Slow>,
                       stopstr: Option<string>) {
    function Without(n: string): Wire {
      this.(sents := sents - {n}, specs := specs - {n},
            slow := if slow.Some? && slow.value.name == n then Some(slow.value.(listed := false)) else slow)
    }

    ghost function Texts(): map<string, string> {
      map n | n in specs :: StopText(specs[n].stopstr, stopstr)
    }
  }

  // From s to t the process of n went away.
  predicate Halted(s: L.State, t: L.State, n: string) {
    n in s.cmds && n in t.cmds && L.Running(s.cmds[n]) && !L.Running(t.cmds[n])
  }

  // Every command that was stopped has been sent its stop string.
  ghost function StopSents(sents: map<string, Sending>, texts: map<string, string>, s: L.State, t: L.State, now: real)
    : map<string, Sending>
  {
    map n | n in sents :: if n in texts && Halted(s, t, n) then sents[n].Plus(texts[n], Delivery(now, StopString)) else sents[n]
  }

  // What a step taken at a given time sends. A new command is described by spec.
  ghost function Step(w: Wire, s: L.State, e: L.Event, spec: Request, now: real): Wire
    requires L.Enabled(s, e)
  {
    match e
    case CmdNotify(n, isOpen) => if n in w.sents then w.(sents := w.sents[n := w.sents[n].Notified(isOpen)]) else w
    case CltClose(_) => w.(sents := StopSents(w.sents, w.Texts(), s, L.Step(s, e), now))
    case CltEvent(n, due) =>
      if L.Forwards(s, n, due) && n in w.sents then
        var sents := w.sents[n := w.sents[n].Plus([s.cmds[n].clt.inq[0]], Delivery(now, Client))];
        w.(sents := StopSents(sents, w.Texts(), s, L.Step(s, e), now))
      else w
    case BcstClose => w.(sents := StopSents(w.sents, w.Texts(), s, L.Step(s, e), now))
    case BcstEvent(due) =>
      if L.BcstBlocked(s) || !due then w
      else w.(sents := PlusAll(w.sents, [s.bcst.inq[0]], Delivery(now, Bcst)))
    case Exit(n, _) => if s.cmds[n].deleteonexit then w.Without(n) else w
    case Add(n, _) =>
      if n in s.cmds then w
      else w.(sents := w.sents[n := Silent], specs := w.specs[n := spec],
              slow := if w.slow.None? || spec.delay > w.slow.value.delay then Some(Slow(n, spec.delay, true)) else w.slow)
    case Del(n) => w.Without(n)
    case Terminate => Wire(map[], map[], None, w.stopstr)
    case _ => w
  }

  // Does the clock let the waiting byte through (tty.c:351-358)?
  predicate DueAt(w: Wire, e: L.Event, now: real) {
    match e
    case CltEvent(n, _) =>
      n in w.sents && n in w.specs && (w.specs[n].delay <= 0.0 || now - w.sents[n].last >= w.specs[n].delay)
    case BcstEvent(_) =>
      w.slow.Some? && w.slow.value.name in w.sents
      && (w.slow.value.delay <= 0.0 || now - w.sents[w.slow.value.name].last >= w.slow.value.delay)
    case _ => true
  }
}
