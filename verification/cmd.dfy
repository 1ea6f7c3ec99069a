// cmd_t and its operations (cmd.h, cmd.c), and the globals they use (yar.h). Each
// method is proved against the plain-text relay (relay.dfy) and the lifecycle steps
// (lifecycle.dfy).
module Cmds {
  import opened Text
  import opened Ttys
  import opened Wires
  import Drains
  import L = Lifecycle
  import Ready
  import Relay
  import Ring

  const CMD_BUFSIZE: nat := Relay.CMD_BUFSIZE

  // The ring buffer with everything it has held, and what waits in cmdtty.
  datatype Side = SideOf(ring: seq<char>, bufn: nat, bufstart: nat, bufof: nat, history: string,
                       queue: seq<L.Byte>, unread: string) {
    // As cmdInit and cmdCreate leave it.
    ghost predicate Empty() {
      |ring| == CMD_BUFSIZE && bufn == 0 && bufstart == 0 && bufof == 0 && history == "" && queue == [] && unread == ""
    }

    // The ring holds the recent history, bufof counts the wraps of the current line, and
    // queue is what waits.
    ghost predicate Sound(mode: Relay.Mode) {
      && Ring.Holds(ring, history) && bufn == |history| && bufstart <= bufn
      && (mode.Line? ==> bufof == (bufn - bufstart) / CMD_BUFSIZE)
      && L.Chars(queue) == unread
    }

    // The output since the last flush.
    function Pending(): string
      requires bufstart <= |history|
    {
      history[bufstart..]
    }
  }

  // A table is keyed by name and no two of its commands share a part. All of this is
  // fixed at creation.
  ghost predicate TableOf(cmds: map<string, Cmd>, bcst: Tty) {
    && (forall n | n in cmds :: cmds[n].name == n && cmds[n].Formed() && cmds[n].Apart(bcst))
    && (forall m, n | m in cmds && n in cmds && m != n :: cmds[m].DisjointFrom(cmds[n]))
  }

  lemma TableInsert(cmds: map<string, Cmd>, bcst: Tty, c: Cmd)
    requires TableOf(cmds, bcst) && c.name !in cmds && c.Formed() && c.Apart(bcst)
    requires forall n | n in cmds :: cmds[n].DisjointFrom(c)
    ensures TableOf(cmds[c.name := c], bcst)
  {
    hide Cmd.Formed, Cmd.Apart;
    var t := cmds[c.name := c];
    forall m, n | m in t && n in t && m != n ensures t[m].DisjointFrom(t[n]) {
      if m == c.name { assert t[n].DisjointFrom(c); }
    }
  }

  lemma TableRemove(cmds: map<string, Cmd>, bcst: Tty, n: string)
    requires TableOf(cmds, bcst)
    ensures TableOf(cmds - {n}, bcst)
  {}

  // GBLS. order is the table's insertion order; children are the live processes.
  class Globals {
    const bcsttty: Tty
    const readystr: Option<string>
    const stopstr: Option<string>
    var cmds: map<string, Cmd>
    var order: seq<string>
    var slowestcmd: Cmd?
    var cmdsreadycnt: int
    var linebufferbcst: bool
    var prefixbcst: bool
    var bcstflg: bool
    var restart: bool
    var exitonidle: bool
    var cmddelonexit: bool
    var exited: bool
    var aborted: bool
    ghost var children: map<int, string>

    constructor (bcst: Tty, readystr: Option<string>, stopstr: Option<string>)
      ensures bcsttty == bcst && this.readystr == readystr && this.stopstr == stopstr
      ensures cmds == map[] && order == [] && cmdsreadycnt == 0 && children == map[]
      ensures !bcstflg && !linebufferbcst && !prefixbcst && restart && !exited && !aborted
    {
      bcsttty, this.readystr, this.stopstr := bcst, readystr, stopstr;
      cmds, order, slowestcmd, cmdsreadycnt, children := map[], [], null, 0, map[];
      linebufferbcst, prefixbcst, bcstflg, exitonidle, cmddelonexit, exited := false, false, false, false, false, false;
      restart, aborted := true, false;
    }

    ghost predicate Table()
      reads `cmds
    {
      bcsttty.Sized() && TableOf(cmds, bcsttty)
    }

    // The lifecycle state s describes this heap.
    ghost predicate Is(s: L.State)
      reads this, bcsttty, set n | n in cmds :: cmds[n], set n | n in cmds :: cmds[n].clttty
    {
      && s.cmds.Keys == cmds.Keys
      && (forall n | n in cmds :: s.cmds[n] == cmds[n].Proc())
      && s.order == order && s.cmdsreadycnt == cmdsreadycnt && s.children == children
      && s.bcst == L.Tty(bcsttty.opens, bcsttty.inq)
      && s.flags == L.Flags(bcstflg, restart, exitonidle, cmddelonexit, readystr, exited, aborted)
    }

    // What each command of the table was sent.
    ghost function Sents(): map<string, Sending>
      reads `cmds, set n | n in cmds :: cmds[n], set n | n in cmds :: cmds[n].cmdtty
    {
      map n | n in cmds :: cmds[n].Sent()
    }

    // What each command of the table would be sent when it is stopped.
    ghost function Texts(): map<string, string>
      reads `cmds
    {
      map n | n in cmds :: cmds[n].StopText(this)
    }

    ghost function Sides(): map<string, Side>
      reads `cmds, set n | n in cmds :: cmds[n], set n | n in cmds :: cmds[n].buf, set n | n in cmds :: cmds[n].cmdtty
    {
      map n | n in cmds :: cmds[n].Side()
    }

    // No other command uses the parts of c.
    ghost predicate Isolated(c: Cmd)
      reads `cmds
    {
      && c.name in cmds && cmds[c.name] == c && c.Formed()
      && forall n | n in cmds && n != c.name ::
           && cmds[n] != c && cmds[n].cmdtty != c.cmdtty && cmds[n].cmdtty != c.clttty
           && cmds[n].buf != c.buf && cmds[n].buf != c.cmdtty.discards && cmds[n].buf != c.clttty.discards
    }

    // The same for everything but one command and the counters.
    ghost predicate IsBut(s: L.State, n: string)
      reads `cmds, `order, `bcstflg, `restart, `exitonidle, `cmddelonexit, `exited, bcsttty,
        set m | m in cmds && m != n :: cmds[m], set m | m in cmds && m != n :: cmds[m].clttty
    {
      && s.cmds.Keys == cmds.Keys
      && (forall m | m in cmds && m != n :: s.cmds[m] == cmds[m].Proc())
      && s.order == order
      && s.bcst == L.Tty(bcsttty.opens, bcsttty.inq)
      && s.flags == L.Flags(bcstflg, restart, exitonidle, cmddelonexit, readystr, exited, s.flags.aborted)
    }

    lemma Settle(s: L.State, t: L.State, n: string)
      requires IsBut(s, n) && n in cmds && L.Moves(s, t, n, cmds[n].Proc(), cmdsreadycnt, children, aborted)
      ensures Is(t)
    {}

    // c is in the table and no other command uses its parts.
    ghost predicate Alone(c: Cmd)
      reads `cmds
    {
      && c.name in cmds && cmds[c.name] == c && c.Formed() && c.Apart(bcsttty)
      && forall n | n in cmds && n != c.name ::
           cmds[n] != c && cmds[n].clttty != c.clttty && cmds[n].clttty != c.cmdtty
    }

    function Ready(): string {
      if readystr.Some? then readystr.value else ""
    }

    function Mode(): Relay.Mode
      reads `bcstflg, `linebufferbcst, `prefixbcst
    {
      if !bcstflg then Relay.Off
      else if !linebufferbcst then Relay.Raw
      else Relay.Line(prefixbcst)
    }
  }

  class Cmd {
    const buf: array<char>
    const name: string
    const bcstprefix: string
    const cmdline: string
    const stopstr: Option<string>
    const delay: real
    const cmdtty: Tty
    const clttty: Tty
    var lastwrite: real
    var bufn: nat
    var bufstart: nat
    var bufof: nat
    var pid: int
    var readycnt: nat
    var restart: bool
    var restartcnt: nat
    var deleteonexit: bool
    ghost var history: string      // everything read from the command
    ghost var queue: seq<L.Byte>   // what is in cmdtty, with its writers
    ghost var seen: seq<L.Byte>    // what was read since the latest start
    ghost var life: seq<L.Mark>
    ghost var log: seq<Delivery>   // what cmdtty delivered

    // cmdInit and cmdCreate.
    constructor (name: string, cmdline: string, stopstr: Option<string>, delay: real, deleteonexit: bool,
                 cmdtty: Tty, clttty: Tty)
      requires cmdtty.Sized() && clttty.Sized() && cmdtty != clttty && cmdtty.discards != clttty.discards
      ensures this.name == name && this.cmdline == cmdline && this.delay == delay && this.stopstr == stopstr
      ensures this.cmdtty == cmdtty && this.clttty == clttty && fresh(buf)
      ensures Formed() && RingOK() && LineOK() && history == ""
      ensures Sent() == Sending(cmdtty.offered, [], 0.0, cmdtty.opens)
      ensures clttty.opens == 0 && clttty.inq == "" ==> Proc() == L.NewCmd(deleteonexit)
      ensures cmdtty.inq == "" ==> Side().Empty()
    {
      buf := new char[CMD_BUFSIZE];
      this.name, this.cmdline, this.stopstr, this.delay := name, cmdline, stopstr, delay;
      bcstprefix := name + ": ";
      this.cmdtty, this.clttty := cmdtty, clttty;
      bufn, bufstart, bufof := 0, 0, 0;
      pid, readycnt, restart, restartcnt, this.deleteonexit := -1, 0, true, 0, deleteonexit;
      lastwrite := 0.0;
      history, queue, seen, life, log := "", [], [], [], [];
    }

    // Fixed at creation: sizes, the prefix, and that no part is shared.
    ghost predicate Formed() {
      && buf.Length == CMD_BUFSIZE && bcstprefix == Relay.Prefix(name)
      && cmdtty.Sized() && clttty.Sized()
      && cmdtty != clttty
      && buf != cmdtty.discards && buf != clttty.discards && cmdtty.discards != clttty.discards
    }

    ghost predicate Apart(t: Tty) {
      && t.Sized() && t != cmdtty && t != clttty
      && t.discards != buf && t.discards != cmdtty.discards && t.discards != clttty.discards
    }

    ghost predicate DisjointFrom(o: Cmd) {
      && o.cmdtty != cmdtty && o.cmdtty != clttty && o.clttty != cmdtty && o.clttty != clttty
      && o.buf != buf && o.buf != cmdtty.discards && o.buf != clttty.discards
      && o.cmdtty.discards != buf && o.cmdtty.discards != cmdtty.discards && o.cmdtty.discards != clttty.discards
      && o.clttty.discards != buf && o.clttty.discards != cmdtty.discards && o.clttty.discards != clttty.discards
    }

    ghost predicate RingOK()
      reads `bufn, `history, buf
    {
      bufn == |history| && Ring.Holds(buf[..], history)
    }

    ghost predicate LineOK()
      reads `bufn, `bufstart, `bufof
    {
      bufstart <= bufn && bufof == (bufn - bufstart) / CMD_BUFSIZE
    }

    // The output since the last flush.
    ghost function Pending(): string
      requires bufstart <= |history|
      reads `bufstart, `history
    {
      history[bufstart..]
    }

    ghost function Proc(): L.Cmd
      reads `pid, `readycnt, `restart, `deleteonexit, `queue, `seen, `life, clttty`opens, clttty`inq
    {
      L.Cmd(pid, readycnt, restart, deleteonexit, L.Tty(clttty.opens, clttty.inq), queue, seen, life)
    }

    ghost function Side(): Side
      reads `bufn, `bufstart, `bufof, `history, `queue, buf, cmdtty`inq
    {
      SideOf(buf[..], bufn, bufstart, bufof, history, queue, cmdtty.inq)
    }

    // queue is what cmdtty holds.
    ghost predicate QueueOK()
      reads `queue, cmdtty`inq
    {
      L.Chars(queue) == cmdtty.inq
    }

    predicate IsRunning()
      reads `pid
    {
      pid != -1
    }

    predicate IsReady(g: Globals)
      reads `readycnt
    {
      |g.Ready()| == 0 || readycnt == |g.Ready()|
    }

    // ---- cmdttyProcessOutput ----

    // The ready-string block (cmd.c:73-98). Its last assert stops yar.
    method MatchReady(g: Globals, c: char)
      requires !g.aborted
      modifies `readycnt, g`cmdsreadycnt, g`aborted
      ensures readycnt == Ready.Advance(g.Ready(), old(readycnt), c)
      ensures var completes := Ready.Completes(g.Ready(), old(readycnt), c);
        && g.cmdsreadycnt == old(g.cmdsreadycnt) + L.One(completes)
        && (g.aborted <==> completes && g.cmdsreadycnt > |g.cmds|)
    {
      var ready := g.Ready();
      if |ready| != 0 && readycnt < |ready| {
        if ready[readycnt] == c {
          readycnt := readycnt + 1;
          assert readycnt <= |ready|;
          if readycnt == |ready| {
            g.cmdsreadycnt := g.cmdsreadycnt + 1;
            if !(g.cmdsreadycnt <= |g.cmds|) { g.aborted := true; }
          }
        } else {
          readycnt := 0;
        }
      }
    }

    // cmd.c:100-103
    method StoreByte(c: char)
      requires Formed() && RingOK()
      modifies buf, `bufn, `history
      ensures RingOK() && bufn == old(bufn) + 1 && history == old(history) + [c]
    {
      Ring.Store(buf[..], history, c);
      var i := Ring.NtoI(bufn);
      buf[i] := c;
      assert buf[..] == old(buf[..])[i := c];
      bufn := bufn + 1;
      history := history + [c];
    }

    // cmd.c:132-164: the buffer holds the complete line, in one piece or in two.
    method FlushComplete(bcst: Tty, end: nat) returns (n: nat)
      requires Formed() && Apart(bcst) && RingOK() && LineOK() && bufstart < bufn
      requires end == Ring.NtoI(bufn - 1) && bufof == 0
      modifies bcst, bcst.discards
      ensures RingOK()
      ensures bcst.offered == old(bcst.offered) + Relay.Tail(Pending())
      ensures n == |Relay.Tail(Pending())|
      ensures bcst.opens == old(bcst.opens) && bcst.inq == old(bcst.inq)
    {
      hide Ring.Holds, Relay.Tail;
      ghost var ring, sent := buf[..], bcst.offered;
      var start := Ring.NtoI(bufstart);
      var len, written, stamped;
      if start <= end {
        Ring.Contiguous(ring, history, bufstart);
        len := end - start + 1;
        written, stamped := bcst.WriteBuf(buf[start..start + len]);
        assert written == len;
        n := written;
      } else {
        Ring.TwoPieces(ring, history, bufstart);
        len := CMD_BUFSIZE - start;
        assert len >= 1;
        written, stamped := bcst.WriteBuf(buf[start..start + len]);
        assert written == len;
        n := written;
        len := end + 1;
        written, stamped := bcst.WriteBuf(buf[0..len]);
        assert written == len;
        n := n + written;
        Assoc(sent, ring[start..], ring[..end + 1]);
      }
    }

    // cmd.c:165-185: the line wrapped; the oldest byte kept follows the newest.
    method FlushOverflowed(bcst: Tty, end: nat) returns (n: nat)
      requires Formed() && Apart(bcst) && RingOK() && LineOK() && bufstart < bufn
      requires end == Ring.NtoI(bufn - 1) && bufof > 0
      modifies bcst, bcst.discards
      ensures RingOK()
      ensures bcst.offered == old(bcst.offered) + Relay.Tail(Pending())
      ensures n == |Relay.Tail(Pending())|
      ensures bcst.opens == old(bcst.opens) && bcst.inq == old(bcst.inq)
    {
      ghost var ring, sent := buf[..], bcst.offered;
      Ring.Overflowed(ring, history, bufstart);
      var len, written, stamped;
      n := 0;
      if end + 1 < CMD_BUFSIZE {
        len := CMD_BUFSIZE - (end + 1);
        written, stamped := bcst.WriteBuf(buf[end + 1..end + 1 + len]);
        assert written == len;
        n := n + written;
      }
      assert bcst.offered == sent + ring[end + 1..];
      len := end + 1;
      written, stamped := bcst.WriteBuf(buf[0..len]);
      assert written == len;
      n := n + written;
      Assoc(sent, ring[end + 1..], ring[..end + 1]);
    }

    // The end of a line (cmd.c:130-188): whatever its place in the ring, the line goes
    // out in order, cut to its last CMD_BUFSIZE bytes.
    method FlushLine(bcst: Tty) returns (n: nat)
      requires Formed() && Apart(bcst) && RingOK() && LineOK() && bufstart < bufn
      modifies `bufstart, `bufof,
        bcst, bcst.discards
      ensures RingOK() && LineOK() && bufstart == bufn
      ensures bcst.offered == old(bcst.offered) + Relay.Tail(old(Pending()))
      ensures n == |Relay.Tail(old(Pending()))|
      ensures bcst.opens == old(bcst.opens) && bcst.inq == old(bcst.inq)
    {
      var end := Ring.NtoI(bufn - 1);
      if bufof == 0 {
        n := FlushComplete(bcst, end);
      } else {
        n := FlushOverflowed(bcst, end);
        bufof := 0;
      }
      bufstart := bufn;
    }

    ghost function Seen(g: Globals): Drains.Seen
      requires bufstart <= |history|
      reads `readycnt, `bufstart, `history, clttty`offered, g.bcsttty`offered
    {
      Drains.Seen(readycnt, history, Pending(), clttty.offered, g.bcsttty.offered)
    }

    // cmd.c:121-188: the prefix if there is one, then the line.
    method SendLine(bcst: Tty, prefix: bool) returns (n: nat)
      requires Formed() && Apart(bcst) && RingOK() && LineOK() && bufstart < bufn
      modifies `bufstart, `bufof, bcst, bcst.discards
      ensures RingOK() && LineOK() && bufstart == bufn
      ensures bcst.offered == old(bcst.offered) + ((if prefix then bcstprefix else "") + Relay.Tail(old(Pending())))
      ensures n == |Relay.Tail(old(Pending()))|
      ensures bcst.opens == old(bcst.opens) && bcst.inq == old(bcst.inq)
    {
      hide Ring.Holds, Relay.Tail;
      ghost var sent, line := bcst.offered, Relay.Tail(Pending());
      if prefix && |bcstprefix| > 0 {
        var written, stamped := bcst.WriteBuf(bcstprefix);
        assert written == |bcstprefix|;
      }
      n := FlushLine(bcst);
      Assoc(sent, if prefix then bcstprefix else "", line);
    }

    // cmd.c:115-190: what a byte just stored sends to the broadcast tty in line mode.
    method BroadcastLine(bcst: Tty, prefix: bool, c: char, ghost p: string) returns (n: nat)
      requires Formed() && Apart(bcst) && RingOK() && bufstart < bufn && Pending() == p + [c]
      requires bufof == (bufn - 1 - bufstart) / CMD_BUFSIZE
      modifies `bufstart, `bufof, bcst, bcst.discards
      ensures RingOK() && bufstart <= bufn && LineOK()
      ensures bcst.offered == old(bcst.offered) + Relay.Offer(Relay.Line(prefix), name, p, c)
      ensures Pending() == Relay.Keep(Relay.Line(prefix), p, c)
      ensures n == Relay.Carried(Relay.Line(prefix), p, c)
      ensures bcst.opens == old(bcst.opens) && bcst.inq == old(bcst.inq)
    {
      n := 0;
      Ring.Wraps(bufstart, bufn - 1);
      hide Ring.Holds, Relay.Tail;
      if Ring.NtoI(bufn) == Ring.NtoI(bufstart) {
        bufof := bufof + 1;
      }
      if c == '\n' {
        n := SendLine(bcst, prefix);
      }
    }

    // cmd.c:109-191
    method Broadcast(g: Globals, c: char, ghost p: string) returns (n: nat)
      requires Formed() && Apart(g.bcsttty) && RingOK() && bufstart < bufn && Pending() == p + [c]
      requires g.Mode().Line? ==> bufof == (bufn - 1 - bufstart) / CMD_BUFSIZE
      modifies `bufstart, `bufof, g.bcsttty, g.bcsttty.discards
      ensures RingOK() && bufstart <= bufn
      ensures g.Mode().Line? ==> LineOK()
      ensures g.bcsttty.offered == old(g.bcsttty.offered) + Relay.Offer(g.Mode(), name, p, c)
      ensures Pending() == Relay.Keep(g.Mode(), p, c)
      ensures n == Relay.Carried(g.Mode(), p, c)
      ensures g.bcsttty.opens == old(g.bcsttty.opens) && g.bcsttty.inq == old(g.bcsttty.inq)
    {
      n := 0;
      hide Ring.Holds;
      if g.bcstflg {
        if !g.linebufferbcst {
          var written, stamped := g.bcsttty.WriteBuf([c]);
          assert written == 1;
          n := written;
        } else {
          n := BroadcastLine(g.bcsttty, g.prefixbcst, c, p);
        }
      }
    }

    // cmd.c:100-108: storing, and the write to the client tty.
    method Absorb(c: char) returns (n: nat)
      requires Formed() && RingOK() && bufstart <= bufn
      modifies `bufn, `history, buf, clttty, clttty.discards
      ensures RingOK() && bufn == old(bufn) + 1 && Pending() == old(Pending()) + [c]
      ensures history == old(history) + [c]
      ensures clttty.offered == old(clttty.offered) + [c]
      ensures clttty.opens == old(clttty.opens) && clttty.inq == old(clttty.inq)
      ensures n == 1
    {
      hide Ring.Holds;
      StoreByte(c);
      var written, stamped := clttty.WriteBuf([c]);
      assert written == 1;
      n := written;
    }

    // The next byte completes the ready string and the assert on the global count fails.
    ghost predicate Fires(g: Globals)
      reads `pid, `readycnt, `restart, `deleteonexit, `queue, `seen, `life, clttty`opens, clttty`inq, g`cmdsreadycnt, g`cmds
    {
      L.Completing(g.Ready(), Proc()) && g.cmdsreadycnt + 1 > |g.cmds|
    }

    // cmd.c:51-98: the byte is read and matched.
    method TakeByte(g: Globals) returns (n: int, c: char)
      requires Formed() && Apart(g.bcsttty) && QueueOK() && !g.aborted
      modifies `readycnt, `queue, `seen, g`cmdsreadycnt, g`aborted, cmdtty
      ensures QueueOK() && Sent() == old(Sent())
      ensures old(cmdtty.inq) == "" ==> n == -1 && cmdtty.inq == "" && !g.aborted && unchanged(this, g`cmdsreadycnt)
      ensures old(cmdtty.inq) != "" ==>
        && n == 1 && c == old(cmdtty.inq)[0] && cmdtty.inq == old(cmdtty.inq)[1..]
        && old(queue) != [] && Proc() == L.Take(g.Ready(), old(Proc()))
        && g.cmdsreadycnt == old(g.cmdsreadycnt) + L.One(L.Completing(g.Ready(), old(Proc())))
        && (g.aborted <==> old(Fires(g)))
      ensures old(cmdtty.inq) != "" ==> readycnt == Ready.Advance(g.Ready(), old(readycnt), c)
    {
      QueueHead();
      hide Ready.Advance, L.Chars;
      n, c := cmdtty.ReadChar(None, 0.0, 0.0);
      if n == 1 {
        seen, queue := seen + [queue[0]], queue[1..];
        MatchReady(g, c);
      }
    }

    lemma OfferIs(g: Globals, p: string, c: char)
      ensures var line := Relay.Tail(p + [c]);
        var sent := if !g.bcstflg then ""
                    else if !g.linebufferbcst then [c]
                    else if c != '\n' then ""
                    else (if g.prefixbcst then name + ": " else "") + line;
        && Relay.Offer(g.Mode(), name, p, c) == sent
        && Relay.Carried(g.Mode(), p, c) == if g.bcstflg && g.linebufferbcst && c == '\n' then |line| else |sent|
    {
      hide Relay.Tail;
    }

    // cmd.c:100-191: the byte is stored and passed on.
    method PassByte(g: Globals, c: char) returns (n: nat)
      requires Formed() && Apart(g.bcsttty) && RingOK() && bufstart <= bufn
      requires g.Mode().Line? ==> LineOK()
      modifies `bufn, `history, `bufstart, `bufof, buf, clttty, clttty.discards, g.bcsttty, g.bcsttty.discards
      ensures RingOK() && bufstart <= bufn
      ensures g.Mode().Line? ==> LineOK()
      ensures history == old(history) + [c] && Pending() == Relay.Keep(g.Mode(), old(Pending()), c)
      ensures clttty.offered == old(clttty.offered) + [c]
      ensures g.bcsttty.offered == old(g.bcsttty.offered) + Relay.Offer(g.Mode(), name, old(Pending()), c)
      ensures n == 1 + Relay.Carried(g.Mode(), old(Pending()), c)
      // In plain terms: unbuffered, the byte; in line mode, at a newline, what is buffered.
      ensures var line := Relay.Tail(old(Pending()) + [c]);
        var sent := if !g.bcstflg then ""
                    else if !g.linebufferbcst then [c]
                    else if c != '\n' then ""
                    else (if g.prefixbcst then name + ": " else "") + line;
        && g.bcsttty.offered == old(g.bcsttty.offered) + sent
        && n == 1 + if g.bcstflg && g.linebufferbcst && c == '\n' then |line| else |sent|
      ensures g.bcsttty.opens == old(g.bcsttty.opens) && g.bcsttty.inq == old(g.bcsttty.inq)
      ensures clttty.opens == old(clttty.opens) && clttty.inq == old(clttty.inq)
    {
      ghost var p := Pending();
      OfferIs(g, p, c);
      hide Ring.Holds, Relay.Offer, Relay.Keep, Relay.Carried, Relay.Tail;
      n := Absorb(c);
      var more := Broadcast(g, c, p);
      n := n + more;
    }

    // Reads one byte of the command's output: matches it, buffers it, passes it to the
    // client tty and, as the mode says, to the broadcast tty; unless the assert in the
    // matching stops yar.
    method ProcessOutput(g: Globals) returns (n: int)
      requires Formed() && Apart(g.bcsttty) && RingOK() && bufstart <= bufn && QueueOK() && !g.aborted
      requires g.Mode().Line? ==> LineOK()
      modifies `readycnt, `queue, `seen, `bufn, `history, `bufstart, `bufof, buf, g`cmdsreadycnt, g`aborted,
        cmdtty, clttty, clttty.discards, g.bcsttty, g.bcsttty.discards
      ensures RingOK() && bufstart <= bufn && QueueOK()
      ensures g.Mode().Line? ==> LineOK()
      ensures old(cmdtty.inq) == "" ==>
        n == -1 && cmdtty.inq == "" && !g.aborted
        && unchanged(this, g`cmdsreadycnt, clttty`offered, g.bcsttty`offered)
      ensures old(cmdtty.inq) != "" ==>
        && cmdtty.inq == old(cmdtty.inq)[1..]
        && old(queue) != [] && Proc() == L.Take(g.Ready(), old(Proc()))
        && g.cmdsreadycnt == old(g.cmdsreadycnt) + L.One(L.Completing(g.Ready(), old(Proc())))
        && (g.aborted <==> old(Fires(g)))
      ensures old(cmdtty.inq) != "" && !g.aborted ==>
        var c := old(cmdtty.inq)[0];
        && Seen(g) == Drains.Feed(g.Mode(), g.Ready(), name, old(Seen(g)), c)
        && n == 1 + Relay.Carried(g.Mode(), old(Pending()), c)
      ensures g.aborted ==>
        n == 0 && history == old(history) && Pending() == old(Pending())
        && clttty.offered == old(clttty.offered) && g.bcsttty.offered == old(g.bcsttty.offered)
      ensures Sent() == old(Sent())
      ensures g.bcsttty.opens == old(g.bcsttty.opens) && g.bcsttty.inq == old(g.bcsttty.inq)
      ensures clttty.opens == old(clttty.opens) && clttty.inq == old(clttty.inq)
    {
      var c;
      hide Ring.Holds, Relay.Offer, Relay.Keep, Relay.Carried, Ready.Advance, L.Chars, L.Take, L.Completing, RingOK, Fires;
      n, c := TakeByte(g);
      if n == 1 {
        if g.aborted { return 0; }
        n := PassByte(g, c);
      }
    }

    lemma QueueHead()
      requires QueueOK()
      ensures cmdtty.inq == "" <==> queue == []
      ensures queue != [] ==> queue[0].c == cmdtty.inq[0] && L.Chars(queue[1..]) == cmdtty.inq[1..]
    {}

    // What holds while draining: s0 and count0 are what it began with, done is read.
    ghost predicate Draining(g: Globals, s0: Drains.Seen, count0: int, done: string)
      reads `readycnt, `bufn, `bufstart, `history, clttty`offered, g.bcsttty`offered,
        g`cmds, g`cmdsreadycnt, g`bcstflg, g`linebufferbcst, g`prefixbcst
    {
      bufstart <= |history| &&
      Drains.Drained(g.Mode(), g.Ready(), name, Seen(g), g.cmdsreadycnt, |g.cmds|, s0, count0, done)
    }

    lemma FiresIs(g: Globals)
      requires QueueOK() && cmdtty.inq != ""
      ensures L.Completing(g.Ready(), Proc()) <==> Ready.Completes(g.Ready(), readycnt, cmdtty.inq[0])
      ensures Fires(g) <==> L.Completing(g.Ready(), Proc()) && g.cmdsreadycnt + 1 > |g.cmds|
    {
      QueueHead();
    }

    lemma SeenCnt(g: Globals)
      requires bufstart <= |history|
      ensures Seen(g).readycnt == readycnt
    {}

    lemma NextByte(g: Globals, s0: Drains.Seen, count0: int, done: string)
      requires QueueOK() && cmdtty.inq != "" && Draining(g, s0, count0, done)
      ensures var c := cmdtty.inq[0];
        var done' := done + [c];
        && cmdtty.inq == [c] + cmdtty.inq[1..]
        && if Fires(g) then Drains.Finds(g.Ready(), s0.readycnt, done') && count0 + 1 > |g.cmds|
           else Drains.Drained(g.Mode(), g.Ready(), name, Drains.Feed(g.Mode(), g.Ready(), name, Seen(g), c),
                               g.cmdsreadycnt + L.One(L.Completing(g.Ready(), Proc())), |g.cmds|, s0, count0, done')
    {
      FiresIs(g);
      SeenCnt(g);
      hide L.Completing, Fires, Drains.Drained, Drains.Feed, Drains.Finds, Proc;
      Drains.DrainedNext(g.Mode(), g.Ready(), name, Seen(g), g.cmdsreadycnt, |g.cmds|, s0, count0, done, cmdtty.inq[0]);
    }

    method DrainOne(g: Globals, ghost s0: Drains.Seen, ghost count0: int, ghost done: string) returns (n: int)
      requires Formed() && Apart(g.bcsttty) && RingOK() && bufstart <= bufn && QueueOK() && !g.aborted
      requires g.Mode().Line? ==> LineOK()
      requires Draining(g, s0, count0, done)
      modifies `readycnt, `queue, `seen, `bufn, `history, `bufstart, `bufof, buf, g`cmdsreadycnt, g`aborted,
        cmdtty, clttty, clttty.discards, g.bcsttty, g.bcsttty.discards
      ensures RingOK() && bufstart <= bufn && QueueOK()
      ensures g.Mode().Line? ==> LineOK()
      ensures old(cmdtty.inq) == "" ==> n == -1 && cmdtty.inq == "" && !g.aborted && Draining(g, s0, count0, done)
      ensures old(cmdtty.inq) != "" ==>
        var done' := done + [old(cmdtty.inq)[0]];
        && cmdtty.inq == old(cmdtty.inq)[1..] && old(cmdtty.inq) == [old(cmdtty.inq)[0]] + cmdtty.inq
        && if g.aborted then n == 0 && Drains.Finds(g.Ready(), s0.readycnt, done') && count0 + 1 > |g.cmds|
           else n > 0 && Draining(g, s0, count0, done')
    {
      hide *;
      ghost var had := cmdtty.inq != "";
      if had { NextByte(g, s0, count0, done); }
      n := ProcessOutput(g);
      RingSize();
      if had && !g.aborted {
        DrainingFrom(g, s0, count0, done + [old(cmdtty.inq)[0]]);
      }
    }

    lemma DrainingFrom(g: Globals, s0: Drains.Seen, count0: int, done: string)
      requires bufstart <= |history|
      requires Drains.Drained(g.Mode(), g.Ready(), name, Seen(g), g.cmdsreadycnt, |g.cmds|, s0, count0, done)
      ensures Draining(g, s0, count0, done)
    {}

    // cmdttyDrain: the fold of ProcessOutput over the queue, unless on the way the ready
    // string is completed and the assert on the global count fails.
    method Drain(g: Globals)
      requires Formed() && Apart(g.bcsttty) && RingOK() && bufstart <= bufn && QueueOK() && !g.aborted
      requires g.Mode().Line? ==> LineOK()
      modifies `readycnt, `queue, `seen, `bufn, `history, `bufstart, `bufof, buf, g`cmdsreadycnt, g`aborted,
        cmdtty, clttty, clttty.discards, g.bcsttty, g.bcsttty.discards
      ensures RingOK() && bufstart <= bufn && QueueOK()
      ensures g.Mode().Line? ==> LineOK()
      ensures g.aborted <==>
        Drains.Finds(g.Ready(), old(readycnt), old(cmdtty.inq)) && old(g.cmdsreadycnt) + 1 > |g.cmds|
      ensures !g.aborted ==>
        cmdtty.inq == "" && Seen(g) == Drains.Fold(g.Mode(), g.Ready(), name, old(Seen(g)), old(cmdtty.inq))
    {
      hide *;
      RingSize();
      SeenCnt(g);
      ghost var done, s0, count0 := "", Seen(g), g.cmdsreadycnt;
      DrainBegins(g);
      var n := 1;
      while n > 0
        invariant RingOK() && bufstart <= bufn && QueueOK()
        invariant g.Mode().Line? ==> LineOK()
        invariant old(cmdtty.inq) == done + cmdtty.inq
        invariant if g.aborted then n == 0 && Drains.Finds(g.Ready(), s0.readycnt, done) && count0 + 1 > |g.cmds|
                  else Draining(g, s0, count0, done)
        invariant n <= 0 && !g.aborted ==> cmdtty.inq == ""
        decreases |cmdtty.inq|, n
      {
        ghost var rest := cmdtty.inq;
        n := DrainOne(g, s0, count0, done);
        if rest != "" {
          Assoc(done, [rest[0]], cmdtty.inq);
          done := done + [rest[0]];
        }
      }
      if g.aborted {
        Drains.FindsMore(g.Ready(), s0.readycnt, done, cmdtty.inq);
      } else {
        assert done + "" == done;
        DrainEnds(g, s0, count0, done);
      }
    }

    lemma DrainBegins(g: Globals)
      requires bufstart <= |history|
      ensures Draining(g, Seen(g), g.cmdsreadycnt, "")
    {
      Drains.FoldNone(g.Mode(), g.Ready(), name, Seen(g));
    }

    lemma DrainEnds(g: Globals, s0: Drains.Seen, count0: int, done: string)
      requires Draining(g, s0, count0, done)
      ensures bufstart <= |history| && Seen(g) == Drains.Fold(g.Mode(), g.Ready(), name, s0, done)
      ensures !(Drains.Finds(g.Ready(), s0.readycnt, done) && count0 + 1 > |g.cmds|)
    {}

    lemma RingSize()
      requires RingOK()
      ensures bufn == |history|
    {}

    // ---- The process ----

    // What the command was sent, when something last reached it, and whether it listens.
    ghost function Sent(): Sending
      reads `lastwrite, `log, cmdtty`offered, cmdtty`opens
    {
      Sending(cmdtty.offered, log, lastwrite, cmdtty.opens)
    }

    // What the command was added with.
    function Spec(): Request { Request(cmdline, stopstr, delay) }

    // cmdWriteChar: the timestamp is set when the byte is delivered.
    method WriteChar(c: char, now: real, ghost kind: Kind)
      requires Formed()
      modifies `lastwrite, `log, cmdtty, cmdtty.discards
      ensures Sent() == old(Sent()).Plus([c], Delivery(now, kind))
      ensures cmdtty.outq == old(cmdtty.outq) + if old(cmdtty.opens) != 0 then [c] else ""
      ensures cmdtty.opens == old(cmdtty.opens)
      ensures Side() == old(Side())
    {
      var n, stamped := cmdtty.WriteBuf([c]);
      assert n == 1;
      assert Repeat(Delivery(now, kind), 1) == [Delivery(now, kind)];
      if stamped {
        lastwrite := now;
        log := log + [Delivery(now, kind)];
      } else {
        assert log + [] == log;
      }
    }

    // cmdStart; child is what fork returns to yar.
    method Start(g: Globals, child: int) returns (started: bool)
      requires child > 0
      modifies `pid, `readycnt, `seen, `life, g`children
      ensures started <==> !L.Running(old(Proc()))
      ensures started <==> old(pid) == -1
      ensures started ==> pid == child && readycnt == 0
      ensures Proc() == if started then L.Launch(old(Proc()), child) else old(Proc())
      ensures g.children == if started then old(g.children)[child := name] else old(g.children)
    {
      if IsRunning() { return false; }
      pid := child;
      readycnt := 0;
      seen := [];
      life := life + [L.Started];
      g.children := g.children[child := name];
      started := true;
    }

    function StopText(g: Globals): string { Wires.StopText(stopstr, g.stopstr) }

    // cmd.c:682-707
    method SendStopString(g: Globals, now: real)
      requires Formed()
      modifies `lastwrite, `log, cmdtty, cmdtty.discards
      ensures Sent() == old(Sent()).Plus(StopText(g), Delivery(now, StopString))
      ensures cmdtty.opens == old(cmdtty.opens)
      ensures Side() == old(Side())
    {
      ghost var sent, d := Sent(), Delivery(now, StopString);
      sent.PlusNone(d);
      var text := StopText(g);
      hide Sending.Plus, Cmd.Sent, Cmd.Side, StopText, Wires.StopText;
      if text != "" {
        WriteChar(text[0], now, StopString);
        var i := 1;
        assert text[..1] == [text[0]];
        while i < |text|
          invariant 1 <= i <= |text|
          invariant Sent() == sent.Plus(text[..i], d) && Side() == old(Side())
          invariant cmdtty.opens == old(cmdtty.opens)
        {
          sent.PlusTwice(text[..i], [text[i]], d);
          WriteChar(text[i], now, StopString);
          assert text[..i + 1] == text[..i] + [text[i]];
          i := i + 1;
        }
        assert text[..i] == text;
      }
    }

    // A counted command leaves something to subtract.
    predicate Counted(g: Globals)
      reads `readycnt, g`cmdsreadycnt
    {
      |g.Ready()| > 0 && readycnt == |g.Ready()| ==> g.cmdsreadycnt > 0
    }

    // This command and the counters, from o on, after cmdStop did or did not stop it.
    ghost predicate Settled(g: Globals, o: L.Cmd, stops: bool, count: int, children: map<int, string>)
      reads `pid, `readycnt, `restart, `deleteonexit, `queue, `seen, `life, clttty`opens, clttty`inq,
        g`cmdsreadycnt, g`children
    {
      && Proc() == (if stops then L.Halt(g.Ready(), o) else o)
      && g.cmdsreadycnt == count - L.One(stops && L.Counts(g.Ready(), o))
      && g.children == if stops then children - {o.pid} else children
    }

    // The bookkeeping when the process is gone (cmd.c:709-713, 757-759; 248-254).
    method Forget(g: Globals)
      requires IsRunning() && Counted(g)
      modifies `pid, `readycnt, `life, g`cmdsreadycnt, g`children
      ensures Settled(g, old(Proc()), true, old(g.cmdsreadycnt), old(g.children))
    {
      if IsReady(g) {
        readycnt := 0;
        if |g.Ready()| != 0 { g.cmdsreadycnt := g.cmdsreadycnt - 1; }
        assert |g.Ready()| != 0 ==> g.cmdsreadycnt >= 0;
      }
      g.children := g.children - {pid};
      life := life + [L.Reaped];
      pid := -1;
    }

    // cmdStop: a running process is stopped if forced, or if both its client tty and the
    // broadcast tty are closed and read empty; before that it is sent its own stop string
    // or, if it has none, the global one.
    method Stop(g: Globals, force: bool, now: real) returns (stopped: bool)
      requires Formed() && g.bcsttty != cmdtty && Counted(g)
      modifies `pid, `readycnt, `life, `lastwrite, `log, g`cmdsreadycnt, g`children, cmdtty, cmdtty.discards
      ensures stopped <==> L.Stops(old(Proc()), L.Tty(g.bcsttty.opens, g.bcsttty.inq), force)
      ensures var idle := clttty.opens == 0 && clttty.inq == "" && g.bcsttty.opens == 0 && g.bcsttty.inq == "";
        stopped <==> old(pid) != -1 && (force || idle)
      ensures stopped && stopstr.Some? ==>
        Sent() == old(Sent()).Plus("\n" + stopstr.value, Delivery(now, StopString))
      ensures stopped && stopstr.None? && g.stopstr.Some? ==>
        Sent() == old(Sent()).Plus("\n" + g.stopstr.value, Delivery(now, StopString))
      ensures !stopped || (stopstr.None? && g.stopstr.None?) ==> Sent() == old(Sent())
      ensures stopped ==> pid == -1 && readycnt == (if g.Ready() == "" || old(readycnt) == |g.Ready()| then 0 else old(readycnt))
      ensures g.cmdsreadycnt == old(g.cmdsreadycnt)
        - (if stopped && g.Ready() != "" && old(readycnt) == |g.Ready()| then 1 else 0)
      ensures Settled(g, old(Proc()), stopped, old(g.cmdsreadycnt), old(g.children))
      ensures Sent() == if stopped then old(Sent()).Plus(StopText(g), Delivery(now, StopString)) else old(Sent())
      ensures !stopped ==> pid == old(pid)
      ensures cmdtty.opens == old(cmdtty.opens)
      ensures Side() == old(Side())
    {
      Sent().PlusNone(Delivery(now, StopString));
      if !IsRunning() { return false; }
      if !force {
        if clttty.opens != 0 || clttty.inq != "" || g.bcsttty.opens != 0 || g.bcsttty.inq != "" {
          return false;
        }
      }
      SendStopString(g, now);
      Forget(g);
      stopped := true;
    }

    // ---- The client tty ----

    // ttyNotifyEvent and cmdCltttyNotify, IN_OPEN (cmd.c:447-458)
    method OpenClient(g: Globals, child: int)
      requires child > 0
      modifies `pid, `readycnt, `seen, `life, g`children, clttty`opens
      ensures var o := old(Proc()).(clt := L.Opened(old(Proc()).clt));
        && Proc() == (if L.Running(o) then o else L.Launch(o, child))
        && g.children == if L.Running(o) then old(g.children) else old(g.children)[child := name]
      ensures clttty.opens == old(clttty.opens) + 1 && pid == if old(pid) == -1 then child else old(pid)
    {
      clttty.NotifyEvent(true);
      var started := Start(g, child);
    }

    // IN_CLOSE_WRITE and IN_CLOSE_NOWRITE (cmd.c:459-471)
    method CloseClient(g: Globals, now: real)
      requires Formed() && Apart(g.bcsttty) && Counted(g)
      modifies `pid, `readycnt, `life, `lastwrite, `log, g`cmdsreadycnt, g`children, clttty`opens,
        cmdtty, cmdtty.discards
      ensures var o := old(Proc()).(clt := L.Closed(old(Proc()).clt));
        Settled(g, o, L.Stops(o, L.Tty(g.bcsttty.opens, g.bcsttty.inq), false), old(g.cmdsreadycnt), old(g.children))
      ensures var stopped := old(IsRunning()) && !IsRunning();
        Sent() == if stopped then old(Sent()).Plus(StopText(g), Delivery(now, StopString)) else old(Sent())
      ensures clttty.opens == if old(clttty.opens) > 0 then old(clttty.opens) - 1 else 0
      ensures old(IsRunning()) && !IsRunning() <==>
        old(IsRunning()) && clttty.opens == 0 && clttty.inq == "" && g.bcsttty.opens == 0 && g.bcsttty.inq == ""
      ensures Side() == old(Side())
    {
      clttty.NotifyEvent(false);
      var stopped := Stop(g, false, now);
    }

    // cmdCltttyEvent (cmd.c:378-412). c is the byte that is sent: the next one of the
    // client tty or, when there is none, whatever the variable happened to hold, as the
    // -1 of a failed read passes the test.
    method ReadClient(g: Globals, now: real) returns (c: char)
      requires Formed() && Apart(g.bcsttty) && Counted(g)
      modifies `pid, `readycnt, `life, `lastwrite, `log, g`cmdsreadycnt, g`children, clttty, cmdtty, cmdtty.discards
      ensures var o, due := old(Proc()), Due(old(lastwrite), delay, now);
        if L.IsReady(g.Ready(), o) && due then
          var r := o.(clt := o.clt.(inq := if old(clttty.inq) == "" then "" else o.clt.inq[1..]));
          Settled(g, r, L.Stops(r, L.Tty(g.bcsttty.opens, g.bcsttty.inq), false), old(g.cmdsreadycnt), old(g.children))
        else Settled(g, o, false, old(g.cmdsreadycnt), old(g.children))
      // Nothing goes to the command unless it is ready and its pacing allows it.
      ensures !(L.IsReady(g.Ready(), old(Proc())) && Due(old(lastwrite), delay, now)) ==> Sent() == old(Sent())
      ensures L.IsReady(g.Ready(), old(Proc())) && Due(old(lastwrite), delay, now) <==>
        (g.Ready() == "" || old(readycnt) == |g.Ready()|) && (delay <= 0.0 || now - old(lastwrite) >= delay)
      ensures L.IsReady(g.Ready(), old(Proc())) && Due(old(lastwrite), delay, now) ==>
        var stopped := old(IsRunning()) && !IsRunning();
        && (stopped <==> old(IsRunning()) && clttty.opens == 0 && clttty.inq == "" && g.bcsttty.opens == 0 && g.bcsttty.inq == "")
        && (old(clttty.inq) != "" ==> c == old(clttty.inq)[0])
        && Sent() == old(Sent()).Plus([c], Delivery(now, Client))
                                .Plus(if stopped then StopText(g) else "", Delivery(now, StopString))
      ensures Side() == old(Side())
      ensures !(L.IsReady(g.Ready(), old(Proc())) && Due(old(lastwrite), delay, now)) ==> IsRunning() == old(IsRunning())
    {
      c := *;
      if !IsReady(g) { return; }
      var n;
      n, c := clttty.ReadChar(Some(lastwrite), delay, now);
      if n != 0 {
        WriteChar(c, now, Client);
        var stopped := Stop(g, false, now);
      }
    }
  }
}
