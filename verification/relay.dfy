// The broadcast relay as a function of the bytes read from the commands: what
// cmdttyProcessOutput (cmd.c:100-191) offers to the broadcast tty, with each
// command's buffered line as plain text. The ring buffer that implements it is in
// cmd.dfy.
module Relay {
  import opened Text

  const CMD_BUFSIZE: nat := 4096

  // GBLS.bcstflg, GBLS.linebufferbcst and GBLS.prefixbcst, fixed for a run.
  datatype Mode = Off | Raw | Line(prefix: bool)

  // One byte read from the tty of the named command.
  datatype Out = Out(name: string, c: char)

  datatype State = State(pending: map<string, string>, bcst: string)

  // A completed line of a command.
  datatype Rec = Rec(name: string, line: string)

  // What fits in the buffer: the last CMD_BUFSIZE bytes of a line.
  function Tail(line: string): string {
    if |line| <= CMD_BUFSIZE then line else line[|line| - CMD_BUFSIZE..]
  }

  function Prefix(name: string): string {
    name + ": "
  }

  function Stamp(prefix: bool, r: Rec): string {
    (if prefix then Prefix(r.name) else "") + Tail(r.line)
  }

  // The longest ending of the line that has at most 4096 bytes.
  lemma TailIs(line: string)
    ensures var t := Tail(line);
      |t| == (if |line| < 4096 then |line| else 4096) && line == line[..|line| - |t|] + t
  {}

  // The bytes that reading c from a command offers to the broadcast tty.
  function Offer(mode: Mode, name: string, pending: string, c: char): string {
    match mode
    case Off => ""
    case Raw => [c]
    case Line(prefix) => if c == '\n' then Stamp(prefix, Rec(name, pending + [c])) else ""
  }

  // How many of them cmdttyProcessOutput counts: all but the prefix.
  function Carried(mode: Mode, pending: string, c: char): nat {
    match mode
    case Off => 0
    case Raw => 1
    case Line(_) => if c == '\n' then |Tail(pending + [c])| else 0
  }

  function Keep(mode: Mode, pending: string, c: char): string {
    if mode.Line? && c == '\n' then "" else pending + [c]
  }

  function Pending(s: State, name: string): string {
    if name in s.pending then s.pending[name] else ""
  }

  function Step(mode: Mode, s: State, e: Out): State {
    var p := Pending(s, e.name);
    State(s.pending[e.name := Keep(mode, p, e.c)], s.bcst + Offer(mode, e.name, p, e.c))
  }

  // Any interleaving of the output of any number of commands.
  function Run(mode: Mode, s: State, evs: seq<Out>): State {
    if evs == [] then s
    else Step(mode, Run(mode, s, evs[..|evs| - 1]), evs[|evs| - 1])
  }

  // Everything one command has written.
  function Proj(evs: seq<Out>, name: string): string {
    if evs == [] then ""
    else
      var front := Proj(evs[..|evs| - 1], name);
      var e := evs[|evs| - 1];
      if e.name == name then front + [e.c] else front
  }

  // The completed lines of all commands, in the order their newlines arrive.
  function Completed(evs: seq<Out>): seq<Rec> {
    if evs == [] then []
    else
      var front, e := evs[..|evs| - 1], evs[|evs| - 1];
      if e.c == '\n' then Completed(front) + [Rec(e.name, Partial(Proj(front, e.name)) + "\n")]
      else Completed(front)
  }

  function StampAll(prefix: bool, rs: seq<Rec>): seq<string> {
    seq(|rs|, i requires 0 <= i < |rs| => Stamp(prefix, rs[i]))
  }

  function TailAll(ls: seq<string>): seq<string> {
    seq(|ls|, i requires 0 <= i < |ls| => Tail(ls[i]))
  }

  function LinesOf(rs: seq<Rec>, name: string): seq<string> {
    if rs == [] then []
    else
      var front, r := LinesOf(rs[..|rs| - 1], name), rs[|rs| - 1];
      if r.name == name then front + [r.line] else front
  }

  // Nothing is buffered for any command yet.
  ghost predicate Fresh(s: State) {
    forall n | n in s.pending :: s.pending[n] == ""
  }

  // Line atomicity. Whatever the interleaving, the broadcast tty is offered the
  // commands' completed lines one after the other, in the order of their newlines,
  // each whole (cut to its last CMD_BUFSIZE bytes) and behind its own prefix.
  lemma {:induction false} LineAtomicity(prefix: bool, s: State, evs: seq<Out>)
    requires Fresh(s)
    ensures Run(Line(prefix), s, evs).bcst == s.bcst + Flatten(StampAll(prefix, Completed(evs)))
    ensures forall n :: Pending(Run(Line(prefix), s, evs), n) == Partial(Proj(evs, n))
  {
    if evs == [] {
      assert StampAll(prefix, Completed(evs)) == [];
    } else {
      var front, e := evs[..|evs| - 1], evs[|evs| - 1];
      LineAtomicity(prefix, s, front);
      assert front + [e] == evs;
      hide Step, Pending, Proj, Partial, Completed, StampAll, Flatten;
      AtomicStep(prefix, s.bcst, Run(Line(prefix), s, front), front, e);
    }
  }

  lemma AtomicStep(prefix: bool, b0: string, s: State, front: seq<Out>, e: Out)
    requires s.bcst == b0 + Flatten(StampAll(prefix, Completed(front)))
    requires forall n :: Pending(s, n) == Partial(Proj(front, n))
    ensures Step(Line(prefix), s, e).bcst == b0 + Flatten(StampAll(prefix, Completed(front + [e])))
    ensures forall n :: Pending(Step(Line(prefix), s, e), n) == Partial(Proj(front + [e], n))
  {
    Snoc(front, e);
    PartialSnoc(Proj(front, e.name), e.c);
    if e.c == '\n' {
      var r := Rec(e.name, Partial(Proj(front, e.name)) + "\n");
      StampAllSnoc(prefix, Completed(front), r);
      FlattenSnoc(StampAll(prefix, Completed(front)), Stamp(prefix, r));
      Assoc(b0, Flatten(StampAll(prefix, Completed(front))), Stamp(prefix, r));
    }
  }

  lemma Snoc(front: seq<Out>, e: Out)
    ensures forall n :: Proj(front + [e], n) == if e.name == n then Proj(front, n) + [e.c] else Proj(front, n)
    ensures Completed(front + [e])
      == if e.c == '\n' then Completed(front) + [Rec(e.name, Partial(Proj(front, e.name)) + "\n")] else Completed(front)
  {
    assert (front + [e])[..|front|] == front;
  }

  lemma StampAllSnoc(prefix: bool, rs: seq<Rec>, r: Rec)
    ensures StampAll(prefix, rs + [r]) == StampAll(prefix, rs) + [Stamp(prefix, r)]
  {}

  lemma PartialSnoc(s: string, c: char)
    ensures Partial(s + [c]) == if c == '\n' then "" else Partial(s) + [c]
    ensures Lines(s + [c]) == if c == '\n' then Lines(s) + [Partial(s) + "\n"] else Lines(s)
  {
    assert (s + [c])[..|s|] == s;
  }

  lemma TailAllSnoc(ls: seq<string>, l: string)
    ensures TailAll(ls + [l]) == TailAll(ls) + [Tail(l)]
  {}

  // The lines of one command among all completed lines are the lines of its output.
  lemma {:induction false} CompletedOf(evs: seq<Out>, name: string)
    ensures LinesOf(Completed(evs), name) == Lines(Proj(evs, name))
  {
    if evs != [] {
      var front, e := evs[..|evs| - 1], evs[|evs| - 1];
      CompletedOf(front, name);
      PartialSnoc(Proj(front, name), e.c);
      if e.c == '\n' {
        var r := Rec(e.name, Partial(Proj(front, e.name)) + "\n");
        assert Completed(evs)[..|Completed(front)|] == Completed(front);
        assert Completed(evs)[|Completed(front)|] == r;
      }
    }
  }

  // ---- Taking the broadcast stream apart again (main.c:152-158) ----

  // A reader's view: of each line, the part up to the first ": " names the command.
  function Demux(lines: seq<string>, name: string): seq<string> {
    if lines == [] then []
    else
      var front := Demux(lines[..|lines| - 1], name);
      match Cut(lines[|lines| - 1], ": ")
      case Some((tag, body)) => if tag == name then front + [body] else front
      case None => front
  }

  function Broadcast(evs: seq<Out>): string {
    Run(Line(true), State(map[], ""), evs).bcst
  }

  ghost predicate Good(name: string) {
    '\n' !in name && Lacks(name, ": ")
  }

  ghost predicate Over(evs: seq<Out>, names: set<string>) {
    forall e | e in evs :: e.name in names
  }

  ghost predicate Recovers(evs: seq<Out>, name: string) {
    Demux(Lines(Broadcast(evs)), name) == TailAll(Lines(Proj(evs, name)))
  }

  lemma CutTag(name: string, body: string)
    requires Lacks(name, ": ")
    ensures Cut(Prefix(name) + body, ": ") == Some((name, body))
  {
    var s := Prefix(name) + body;
    assert SepAt(s, |name|, ": ");
    forall j: nat | j < |name| ensures !SepAt(s, j, ": ") {
      if j + 2 <= |name| {
        assert s[j..j + 2] == name[j..j + 2];
        assert !SepAt(name, j, ": ");
      } else {
        assert s[j..j + 2][1] == ':';
      }
    }
    assert s[..|name|] == name && s[|name| + 2..] == body;
  }

  // The tag a reader finds never contains a newline it did not read, nor ": ".
  lemma CutGivesGood(line: string)
    requires IsLine(line)
    ensures var r := Cut(line, ": "); r.Some? ==> Good(r.value.0)
  {
    match Find(line, 0, ": ")
    case None =>
    case Some(i) =>
      var tag := line[..i];
      forall k: nat | k + 2 <= |tag| ensures !SepAt(tag, k, ": ") {
        assert tag[k..k + 2] == line[k..k + 2];
        assert !SepAt(line, k, ": ");
      }
  }

  lemma {:induction false} DemuxBad(lines: seq<string>, name: string)
    requires forall l | l in lines :: IsLine(l)
    requires !Good(name)
    ensures Demux(lines, name) == []
  {
    if lines != [] {
      DemuxBad(lines[..|lines| - 1], name);
      CutGivesGood(lines[|lines| - 1]);
    }
  }

  lemma {:induction false} CompletedShape(evs: seq<Out>)
    ensures forall r | r in Completed(evs) :: IsLine(r.line) && exists e :: e in evs && e.name == r.name
  {
    if evs != [] {
      var front, e := evs[..|evs| - 1], evs[|evs| - 1];
      CompletedShape(front);
      PartialHasNoNewline(Proj(front, e.name));
      assert e in evs;
      forall r | r in Completed(front) ensures exists e :: e in evs && e.name == r.name {
        var e' :| e' in front && e'.name == r.name;
        assert e' in evs;
      }
    }
  }

  lemma StampIsLine(prefix: bool, r: Rec)
    requires IsLine(r.line) && '\n' !in r.name
    ensures IsLine(Stamp(prefix, r))
  {
    var t := Tail(r.line);
    assert t[|t| - 1] == '\n' && '\n' !in t[..|t| - 1];
    var p := if prefix then Prefix(r.name) else "";
    assert Stamp(prefix, r)[..|p + t| - 1] == p + t[..|t| - 1];
  }

  lemma DemuxSnoc(ls: seq<string>, r: Rec, name: string)
    requires Lacks(r.name, ": ")
    ensures Demux(ls + [Stamp(true, r)], name)
      == Demux(ls, name) + if r.name == name then [Tail(r.line)] else []
  {
    assert (ls + [Stamp(true, r)])[..|ls|] == ls;
    CutTag(r.name, Tail(r.line));
  }

  lemma DemuxNone(name: string)
    ensures DemuxedWell([], name)
  {
    assert StampAll(true, []) == [];
  }

  lemma DemuxStep(front: seq<Rec>, r: Rec, name: string)
    requires Lacks(r.name, ": ")
    requires DemuxedWell(front, name)
    ensures DemuxedWell(front + [r], name)
  {
    StampAllSnoc(true, front, r);
    DemuxSnoc(StampAll(true, front), r, name);
    assert (front + [r])[..|front|] == front;
    TailAllSnoc(LinesOf(front, name), r.line);
  }

  ghost predicate DemuxedWell(rs: seq<Rec>, name: string) {
    Demux(StampAll(true, rs), name) == TailAll(LinesOf(rs, name))
  }

  lemma {:induction false} DemuxStamped(rs: seq<Rec>, name: string)
    requires forall i | 0 <= i < |rs| :: Lacks(rs[i].name, ": ")
    ensures DemuxedWell(rs, name)
  {
    if rs == [] {
      DemuxNone(name);
    } else {
      var front, r := rs[..|rs| - 1], rs[|rs| - 1];
      DemuxStamped(front, name);
      DemuxStep(front, r, name);
      assert front + [r] == rs;
    }
  }

  // With line buffering and prefixing on, and names free of newlines and of ": ", the
  // broadcast stream gives back each command's exact sequence of completed lines.
  lemma DemuxRoundTrip(evs: seq<Out>, names: set<string>, name: string)
    requires Over(evs, names) && forall n | n in names :: Good(n)
    ensures Recovers(evs, name)
  {
    var rs := Completed(evs);
    var ls := StampAll(true, rs);
    LineAtomicity(true, State(map[], ""), evs);
    CompletedShape(evs);
    forall l | l in ls ensures IsLine(l) {
      var i :| 0 <= i < |ls| && ls[i] == l;
      assert rs[i] in rs;
      StampIsLine(true, rs[i]);
    }
    LinesUnique(ls, "");
    assert Flatten(ls) + "" == Broadcast(evs);
    forall r | r in rs ensures Lacks(r.name, ": ") {
      assert exists e :: e in evs && e.name == r.name;
    }
    DemuxStamped(rs, name);
    CompletedOf(evs, name);
  }

  // One newline from a command with a bad name is not recovered.
  lemma BadNameLoses(name: string)
    requires !Good(name)
    ensures !Recovers([Out(name, '\n')], name)
  {
    var evs := [Out(name, '\n')];
    assert evs[..0] == [];
    assert Proj(evs, name) == "" + "\n" == "\n";
    PartialSnoc("", '\n');
    assert Lines(Proj(evs, name)) == ["\n"];
    var stream := Broadcast(evs);
    LinesCut(stream);
    DemuxBad(Lines(stream), name);
    assert |TailAll(["\n"])| == 1;
  }

  // The promise of -l -p holds for a set of commands, over every interleaving of their
  // output, exactly when no name contains a newline or ": ".
  lemma DemuxIffGoodNames(names: set<string>)
    ensures (forall evs, n | Over(evs, names) && n in names :: Recovers(evs, n))
      <==> (forall n | n in names :: Good(n))
  {
    if forall n | n in names :: Good(n) {
      forall evs, n | Over(evs, names) && n in names ensures Recovers(evs, n) {
        DemuxRoundTrip(evs, names, n);
      }
    } else {
      var n :| n in names && !Good(n);
      BadNameLoses(n);
      assert Over([Out(n, '\n')], names);
    }
  }

  // ---- Conservation ----

  // Bytes of a line that its overwritten ring slots lose.
  function Lost(line: string): nat {
    |line| - |Tail(line)|
  }

  function LostAll(ls: seq<string>): nat {
    if ls == [] then 0 else LostAll(ls[..|ls| - 1]) + Lost(ls[|ls| - 1])
  }

  // Sum of the broadcast bytes counted for one command along a run.
  function CarriedOf(mode: Mode, s: State, evs: seq<Out>, name: string): nat {
    if evs == [] then 0
    else
      var front, e := evs[..|evs| - 1], evs[|evs| - 1];
      CarriedOf(mode, s, front, name)
        + if e.name == name then Carried(mode, Pending(Run(mode, s, front), name), e.c) else 0
  }

  // Sum of the values cmdttyProcessOutput returns along a run: one for the client tty
  // and the counted broadcast bytes.
  function Returned(mode: Mode, s: State, evs: seq<Out>): nat {
    if evs == [] then 0
    else
      var front, e := evs[..|evs| - 1], evs[|evs| - 1];
      Returned(mode, s, front) + 1 + Carried(mode, Pending(Run(mode, s, front), e.name), e.c)
  }

  // Bytes the prefixes of the completed lines take.
  function PrefixBytes(rs: seq<Rec>): nat {
    if rs == [] then 0 else PrefixBytes(rs[..|rs| - 1]) + |Prefix(rs[|rs| - 1].name)|
  }

  lemma ConservationStep(prefix: bool, out: string, c: char)
    ensures LostAll(Lines(out + [c])) + |Partial(out + [c])| + Carried(Line(prefix), Partial(out), c)
      == LostAll(Lines(out)) + |Partial(out)| + 1
  {
    PartialSnoc(out, c);
    var l := Partial(out) + "\n";
    if c == '\n' {
      assert (Lines(out) + [l])[..|Lines(out)|] == Lines(out);
    }
  }

  // Every byte a command wrote was broadcast, lost to overflow, or is still buffered;
  // a line loses bytes only beyond CMD_BUFSIZE.
  lemma {:induction false} Conservation(prefix: bool, s: State, evs: seq<Out>, name: string)
    requires Fresh(s)
    ensures var out := Proj(evs, name);
      |out| == CarriedOf(Line(prefix), s, evs, name) + LostAll(Lines(out)) + |Partial(out)|
  {
    if evs != [] {
      hide Run, Fresh, Lines, LostAll, Partial, Carried, Pending;
      var front, e := evs[..|evs| - 1], evs[|evs| - 1];
      Conservation(prefix, s, front, name);
      LineAtomicity(prefix, s, front);
      ConservationStep(prefix, Proj(front, name), e.c);
    } else {
      assert Lines("") == [] && Partial("") == "";
    }
  }

  // The returned counts add up to the bytes offered to the clients and the broadcast
  // bytes without their prefixes.
  lemma {:induction false} ReturnedCounts(prefix: bool, s: State, evs: seq<Out>)
    requires Fresh(s)
    ensures |Run(Line(prefix), s, evs).bcst| + |evs|
      == |s.bcst| + Returned(Line(prefix), s, evs) + if prefix then PrefixBytes(Completed(evs)) else 0
  {
    if evs != [] {
      var front, e := evs[..|evs| - 1], evs[|evs| - 1];
      ReturnedCounts(prefix, s, front);
      LineAtomicity(prefix, s, front);
      if e.c == '\n' {
        assert Completed(evs)[..|Completed(front)|] == Completed(front);
      }
    }
  }

  // ---- Without line buffering, and without a broadcast tty ----

  // The bytes of an interleaving in the order they are read.
  function Stream(evs: seq<Out>): string {
    seq(|evs|, i requires 0 <= i < |evs| => evs[i].c)
  }

  lemma StreamSnoc(front: seq<Out>, e: Out)
    ensures Stream(front + [e]) == Stream(front) + [e.c]
  {}

  // Unbuffered relaying: over every interleaving the broadcast tty is offered exactly the
  // bytes read, as they come and without prefixes. Each is counted twice, for the client
  // and for the broadcast tty, and no line is ever flushed.
  lemma {:induction false} RawRun(s: State, evs: seq<Out>)
    ensures Run(Raw, s, evs).bcst == s.bcst + Stream(evs)
    ensures Returned(Raw, s, evs) == 2 * |evs|
    ensures forall n :: Pending(Run(Raw, s, evs), n) == Pending(s, n) + Proj(evs, n)
  {
    if evs == [] {
      assert s.bcst + Stream(evs) == s.bcst;
      assert forall n :: Pending(s, n) + Proj(evs, n) == Pending(s, n);
    } else {
      var front, e := evs[..|evs| - 1], evs[|evs| - 1];
      RawRun(s, front);
      StreamSnoc(front, e);
      assert front + [e] == evs;
      Assoc(s.bcst, Stream(front), [e.c]);
      Assoc(Pending(s, e.name), Proj(front, e.name), [e.c]);
      hide Stream;
    }
  }

  // Without a broadcast tty nothing is offered to one, and only the client is counted.
  lemma {:induction false} OffRun(s: State, evs: seq<Out>)
    ensures Run(Off, s, evs).bcst == s.bcst
    ensures Returned(Off, s, evs) == |evs|
    ensures forall n :: Pending(Run(Off, s, evs), n) == Pending(s, n) + Proj(evs, n)
  {
    if evs == [] {
      assert forall n :: Pending(s, n) + Proj(evs, n) == Pending(s, n);
    } else {
      var front, e := evs[..|evs| - 1], evs[|evs| - 1];
      OffRun(s, front);
      Assoc(Pending(s, e.name), Proj(front, e.name), [e.c]);
    }
  }

  // The bytes of one command's queue as events.
  function Bytes(name: string, q: string): seq<Out> {
    seq(|q|, i requires 0 <= i < |q| => Out(name, q[i]))
  }

  lemma RunByte(mode: Mode, name: string, s: State, q: string, c: char)
    ensures Run(mode, s, Bytes(name, q + [c])) == Step(mode, Run(mode, s, Bytes(name, q)), Out(name, c))
  {
    var evs := Bytes(name, q + [c]);
    assert evs[..|evs| - 1] == Bytes(name, q);
  }

  // One command's share of the state.
  function Alone(name: string, pending: string, bcst: string): State {
    State(map[name := pending], bcst)
  }

  lemma StepAlone(mode: Mode, name: string, p: string, b: string, c: char)
    ensures Step(mode, Alone(name, p, b), Out(name, c))
      == Alone(name, Keep(mode, p, c), b + Offer(mode, name, p, c))
  {}
}
