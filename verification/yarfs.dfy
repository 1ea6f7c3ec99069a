// The synthetic files (yarfs.c): for each, one loop adds up the size and another writes
// the content through a moving pointer; fsFuseReplyBufLimited (fs.c:28-36) hands it out.
module Yarfs {
  import opened Text

  const NUL := '\0'

  // What the files show of a command.
  datatype Info = Info(name: string, link: string, cmdline: string)

  // The yar process: its pid, the commands in the order of the table, the other two ttys.
  datatype Yar = Yar(pid: nat, cmds: seq<Info>, bcstlink: string, monlink: string)

  // snprintf with PRIdMAX, for pids and counts.
  function Decimal(n: nat): string {
    if n < 10 then ["0123456789"[n]] else Decimal(n / 10) + ["0123456789"[n % 10]]
  }

  // ---- The contents ----

  datatype Listing = Cmds | Lcmds | Ttys

  function Row(f: Listing, c: Info, pid: string): string {
    match f
    case Cmds => c.name + "\n"
    case Lcmds => c.name + "," + c.link + "," + pid + "," + c.cmdline + "\n"
    case Ttys => c.link + "," + pid + "," + "cmd" + "," + c.name + "," + c.cmdline + "\n"
  }

  function Rows(f: Listing, cs: seq<Info>, pid: string): seq<string> {
    seq(|cs|, i requires 0 <= i < |cs| => Row(f, cs[i], pid))
  }

  function Content(f: Listing, cs: seq<Info>, pid: string): string { Flatten(Rows(f, cs, pid)) }

  function BcstRow(y: Yar): string {
    y.bcstlink + "," + Decimal(y.pid) + "," + "bcst" + "," + Decimal(|y.cmds|) + ",\n"
  }

  function MonRow(y: Yar): string {
    y.monlink + "," + Decimal(y.pid) + "," + "mon" + "," + ",\n"
  }

  function CmdsText(y: Yar): string { Content(Cmds, y.cmds, Decimal(y.pid)) }

  function LcmdsText(y: Yar): string { Content(Lcmds, y.cmds, Decimal(y.pid)) }

  function TtysText(y: Yar): string { Content(Ttys, y.cmds, Decimal(y.pid)) + BcstRow(y) + MonRow(y) }

  lemma ContentNext(f: Listing, cs: seq<Info>, pid: string, i: nat)
    requires i < |cs|
    ensures Content(f, cs[..i + 1], pid) == Content(f, cs[..i], pid) + Row(f, cs[i], pid)
  {
    assert Rows(f, cs[..i + 1], pid) == Rows(f, cs[..i], pid) + [Row(f, cs[i], pid)];
    FlattenSnoc(Rows(f, cs[..i], pid), Row(f, cs[i], pid));
  }

  lemma {:induction false} ContentFits(f: Listing, cs: seq<Info>, pid: string, i: nat)
    requires i <= |cs|
    ensures |Content(f, cs[..i], pid)| <= |Content(f, cs, pid)|
    decreases |cs| - i
  {
    if i == |cs| {
      assert cs[..i] == cs;
    } else {
      ContentNext(f, cs, pid, i);
      ContentFits(f, cs, pid, i + 1);
    }
  }

  // ---- Sizes ----

  // cmdNamesSize
  method CmdNamesSize(y: Yar) returns (n: nat)
    ensures n == |CmdsText(y)|
  {
    n := 0;
    for i := 0 to |y.cmds|
      invariant n == |Content(Cmds, y.cmds[..i], Decimal(y.pid))|
    {
      ContentNext(Cmds, y.cmds, Decimal(y.pid), i);
      n := n + |y.cmds[i].name| + 1;
    }
    assert y.cmds[..|y.cmds|] == y.cmds;
  }

  // cmdsInfoSize
  method CmdsInfoSize(y: Yar) returns (n: nat)
    ensures n == |LcmdsText(y)|
  {
    var pidstrlen := |Decimal(y.pid)|;
    n := 0;
    for i := 0 to |y.cmds|
      invariant n == |Content(Lcmds, y.cmds[..i], Decimal(y.pid))|
    {
      ContentNext(Lcmds, y.cmds, Decimal(y.pid), i);
      n := n + |y.cmds[i].name| + 1;
      n := n + |y.cmds[i].link| + 1;
      n := n + (pidstrlen + 1);
      n := n + |y.cmds[i].cmdline| + 1;
    }
    assert y.cmds[..|y.cmds|] == y.cmds;
  }

  // ttysInfoSize
  method TtysInfoSize(y: Yar) returns (n: nat)
    ensures n == |TtysText(y)|
  {
    var pidstrlen, cmdcntstrlen := |Decimal(y.pid)|, |Decimal(|y.cmds|)|;
    n := 0;
    for i := 0 to |y.cmds|
      invariant n == |Content(Ttys, y.cmds[..i], Decimal(y.pid))|
    {
      ContentNext(Ttys, y.cmds, Decimal(y.pid), i);
      n := n + |y.cmds[i].link| + 1;
      n := n + (pidstrlen + 1);
      n := n + |"cmd"| + 1;
      n := n + |y.cmds[i].name| + 1;
      n := n + |y.cmds[i].cmdline| + 1;
    }
    assert y.cmds[..|y.cmds|] == y.cmds;
    n := n + |y.bcstlink| + 1;
    n := n + (pidstrlen + 1);
    n := n + |"bcst"| + 1;
    n := n + cmdcntstrlen + 2;
    n := n + |y.monlink| + 1;
    n := n + (pidstrlen + 1);
    n := n + |"mon"| + 3;
  }

  // ---- Contents ----

  // stpcpy: the text and its terminator, which must lie inside the buffer.
  method Stpcpy(buf: array<char>, next: nat, src: string) returns (next': nat)
    requires next + |src| < buf.Length
    modifies buf
    ensures next' == next + |src| && buf[next'] == NUL
    ensures buf[..next'] == old(buf[..next]) + src
  {
    forall i | 0 <= i < |src| { buf[next + i] := src[i]; }
    next' := next + |src|;
    buf[next'] := NUL;
  }

  // stpcpy, and the separator over the terminator.
  method PutField(buf: array<char>, next: nat, src: string, sep: char) returns (next': nat)
    requires next + |src| < buf.Length
    modifies buf
    ensures next' == next + |src| + 1
    ensures buf[..next'] == old(buf[..next]) + src + [sep]
  {
    next' := Stpcpy(buf, next, src);
    buf[next'] := sep;
    next' := next' + 1;
  }

  // Four fields with their separators, in place.
  method PutFour(buf: array<char>, next: nat, a: string, b: string, c: string, d: string, last: char)
    returns (next': nat)
    requires next + |a| + |b| + |c| + |d| + 4 <= buf.Length
    modifies buf
    ensures next' == next + |a| + |b| + |c| + |d| + 4
    ensures buf[..next'] == old(buf[..next]) + (a + "," + b + "," + c + "," + d + [last])
  {
    ghost var s := buf[..next];
    next' := PutField(buf, next, a, ',');
    next' := PutField(buf, next', b, ',');
    next' := PutField(buf, next', c, ',');
    next' := PutField(buf, next', d, last);
    assert buf[..next'] == s + (a + "," + b + "," + c + "," + d + [last]);
  }

  // fs_cmds_read, up to the reply.
  method CmdsRead(y: Yar) returns (buf: array<char>)
    ensures fresh(buf) && buf[..] == CmdsText(y)
  {
    ghost var pid := Decimal(y.pid);
    var n := CmdNamesSize(y);
    buf := new char[n];
    var next: nat := 0;
    hide Content, Decimal;
    for i := 0 to |y.cmds|
      invariant next <= n && buf[..next] == Content(Cmds, y.cmds[..i], pid)
    {
      ContentNext(Cmds, y.cmds, pid, i);
      ContentFits(Cmds, y.cmds, pid, i + 1);
      next := PutField(buf, next, y.cmds[i].name, '\n');
    }
    assert y.cmds[..|y.cmds|] == y.cmds;
    assert buf[..] == buf[..next];
  }

  // fs_lcmds_read, up to the reply.
  method LcmdsRead(y: Yar) returns (buf: array<char>)
    ensures fresh(buf) && buf[..] == LcmdsText(y)
  {
    var n := CmdsInfoSize(y);
    buf := new char[n];
    var pidstr := Decimal(y.pid);
    var next: nat := 0;
    hide Content, Decimal;
    for i := 0 to |y.cmds|
      invariant next <= n && buf[..next] == Content(Lcmds, y.cmds[..i], pidstr)
    {
      var c := y.cmds[i];
      ContentNext(Lcmds, y.cmds, pidstr, i);
      ContentFits(Lcmds, y.cmds, pidstr, i + 1);
      next := PutFour(buf, next, c.name, c.link, pidstr, c.cmdline, '\n');
    }
    assert y.cmds[..|y.cmds|] == y.cmds;
    assert buf[..] == buf[..next];
  }

  method PutTtysRow(buf: array<char>, next: nat, c: Info, pidstr: string) returns (next': nat)
    requires next + |Row(Ttys, c, pidstr)| <= buf.Length
    modifies buf
    ensures next' == next + |Row(Ttys, c, pidstr)|
    ensures buf[..next'] == old(buf[..next]) + Row(Ttys, c, pidstr)
  {
    ghost var s := buf[..next];
    next' := PutFour(buf, next, c.link, pidstr, "cmd", c.name, ',');
    next' := PutField(buf, next', c.cmdline, '\n');
    assert buf[..next'] == s + Row(Ttys, c, pidstr);
  }

  // The broadcast row (yarfs.c:289-302).
  method PutBcstRow(buf: array<char>, next: nat, y: Yar) returns (next': nat)
    requires next + |BcstRow(y)| <= buf.Length
    modifies buf
    ensures next' == next + |BcstRow(y)| && buf[..next'] == old(buf[..next]) + BcstRow(y)
  {
    ghost var s := buf[..next];
    var pidstr, cmdcntstr := Decimal(y.pid), Decimal(|y.cmds|);
    next' := PutFour(buf, next, y.bcstlink, pidstr, "bcst", cmdcntstr, ',');
    buf[next'] := '\n';
    next' := next' + 1;
    assert buf[..next'] == s + BcstRow(y);
  }

  // The monitor row (yarfs.c:304-315), which ends the buffer.
  method PutMonRow(buf: array<char>, next: nat, y: Yar)
    requires next + |MonRow(y)| == buf.Length
    modifies buf
    ensures buf[..] == old(buf[..next]) + MonRow(y)
  {
    ghost var s := buf[..next];
    var pidstr := Decimal(y.pid);
    var next' := PutField(buf, next, y.monlink, ',');
    next' := PutField(buf, next', pidstr, ',');
    next' := PutField(buf, next', "mon", ',');
    buf[next'] := ',';
    next' := next' + 1;
    buf[next'] := '\n';
    assert buf[..] == s + MonRow(y);
  }

  // fs_ttys_read, up to the reply.
  method TtysRead(y: Yar) returns (buf: array<char>)
    ensures fresh(buf) && buf[..] == TtysText(y)
  {
    var n := TtysInfoSize(y);
    buf := new char[n];
    var pidstr := Decimal(y.pid);
    var next: nat := 0;
    hide Content, Decimal, Row, BcstRow, MonRow;
    for i := 0 to |y.cmds|
      invariant next <= n && buf[..next] == Content(Ttys, y.cmds[..i], pidstr)
    {
      ContentNext(Ttys, y.cmds, pidstr, i);
      ContentFits(Ttys, y.cmds, pidstr, i + 1);
      next := PutTtysRow(buf, next, y.cmds[i], pidstr);
    }
    assert y.cmds[..|y.cmds|] == y.cmds;
    next := PutBcstRow(buf, next, y);
    PutMonRow(buf, next, y);
  }

  // bcstSize and fs_bcst_read, up to the reply, when there is a link: the terminator is
  // part of the content.
  method BcstRead(link: string) returns (buf: array<char>)
    ensures fresh(buf) && buf[..] == link + [NUL]
  {
    buf := new char[|link| + 1];
    var next := Stpcpy(buf, 0, link);
    assert buf[..] == buf[..next] + [buf[next]];
  }

  // ---- Handing out ----

  // fsFuseReplyBufLimited: a negative offset, as a size_t, is past any content.
  function Reply(content: string, off: int, maxsize: nat): string {
    if 0 <= off < |content| then
      var n := if |content| - off < maxsize then |content| - off else maxsize;
      content[off..off + n]
    else ""
  }

  method ReplyBufLimited(buf: array<char>, off: int, maxsize: nat) returns (reply: string)
    ensures reply == Reply(buf[..], off, maxsize)
  {
    if 0 <= off < buf.Length {
      var n := if buf.Length - off < maxsize then buf.Length - off else maxsize;
      reply := buf[off..off + n];
    } else {
      reply := "";
    }
  }

  // A reader that asks for sizes in turn, each time from where the last reply ended.
  ghost function ReadAll(content: string, off: nat, sizes: seq<nat>): string
    decreases |sizes|
  {
    if sizes == [] then ""
    else
      var r := Reply(content, off, sizes[0]);
      r + ReadAll(content, off + |r|, sizes[1..])
  }

  ghost function Sum(sizes: seq<nat>): nat {
    if sizes == [] then 0 else sizes[0] + Sum(sizes[1..])
  }

  // Whatever the sizes, the replies put together are the content from there on, cut where
  // the sizes run out.
  lemma {:induction false} ChunksReassemble(content: string, off: nat, sizes: seq<nat>)
    requires off <= |content|
    ensures ReadAll(content, off, sizes) ==
      content[off..if off + Sum(sizes) < |content| then off + Sum(sizes) else |content|]
    decreases |sizes|
  {
    if sizes != [] {
      var r := Reply(content, off, sizes[0]);
      ChunksReassemble(content, off + |r|, sizes[1..]);
    }
  }

  // An empty reply to a positive size means the end, and only that.
  lemma ReplyEmpty(content: string, off: int, maxsize: nat)
    requires maxsize > 0
    ensures Reply(content, off, maxsize) == "" <==> off < 0 || off >= |content|
  {
    if 0 <= off < |content| { assert |Reply(content, off, maxsize)| > 0; }
  }

  // ---- Reading the listings back ----

  // A row: fields that end at commas, and what is left up to the newline.
  datatype Line = Line(fs: seq<string>, rest: string)

  function LineText(r: Line): string { Join(r.fs, r.rest, ",") + "\n" }

  function LineTexts(rs: seq<Line>): seq<string> {
    seq(|rs|, i requires 0 <= i < |rs| => LineText(rs[i]))
  }

  // A reader that cuts every line at its first k commas.
  function ReadLine(line: string, k: nat): Option<Line> {
    if line == "" then None
    else
      match Split(line[..|line| - 1], k, ",")
      case None => None
      case Some((fs, rest)) => Some(Line(fs, rest))
  }

  function ReadLines(ls: seq<string>, k: nat): Option<seq<Line>> {
    if ls == [] then Some([])
    else
      var rs, r := ReadLines(ls[..|ls| - 1], k), ReadLine(ls[|ls| - 1], k);
      if rs.Some? && r.Some? then Some(rs.value + [r.value]) else None
  }

  function ReadTable(text: string, k: nat): Option<seq<Line>> {
    if Partial(text) != "" then None else ReadLines(Lines(text), k)
  }

  // What the fields must do without.
  ghost predicate NoNewline(r: Line) { (forall f | f in r.fs :: '\n' !in f) && '\n' !in r.rest }

  ghost predicate NoComma(r: Line) { forall f | f in r.fs :: ',' !in f }

  lemma {:induction false} ReadLinesAt(ls: seq<string>, rs: seq<Line>, k: nat)
    ensures ReadLines(ls, k) == Some(rs) <==> |ls| == |rs| && forall i | 0 <= i < |ls| :: ReadLine(ls[i], k) == Some(rs[i])
    decreases |ls|
  {
    if ls != [] && rs != [] {
      ReadLinesAt(ls[..|ls| - 1], rs[..|rs| - 1], k);
      assert rs == rs[..|rs| - 1] + [rs[|rs| - 1]];
    }
    if ls != [] && ReadLines(ls, k).Some? { assert ReadLines(ls, k).value != []; }
  }

  // One row reads back exactly when its fields have no comma.
  lemma ReadOne(r: Line, k: nat)
    requires |r.fs| == k
    ensures ReadLine(LineText(r), k) == Some(r) <==> NoComma(r)
  {
    var line := LineText(r);
    var body := line[..|line| - 1];
    assert body == Join(r.fs, r.rest, ",");
    SplitIff(body, ',', r.fs, r.rest);
    assert Clean(r.fs, ',') <==> NoComma(r);
  }

  lemma {:induction false} JoinHas(fs: seq<string>, rest: string, c: char)
    requires c != ','
    ensures c in Join(fs, rest, ",") <==> (exists f :: f in fs && c in f) || c in rest
  {
    if fs != [] {
      JoinHas(fs[1..], rest, c);
      assert forall f :: f in fs <==> f == fs[0] || f in fs[1..];
    }
  }

  lemma LineNewlines(r: Line)
    ensures multiset(LineText(r))['\n'] >= 1
    ensures multiset(LineText(r))['\n'] == 1 <==> NoNewline(r)
    ensures IsLine(LineText(r)) <==> NoNewline(r)
  {
    var body, t := Join(r.fs, r.rest, ","), LineText(r);
    JoinHas(r.fs, r.rest, '\n');
    assert multiset(t) == multiset(body) + multiset("\n");
    assert '\n' in multiset(body) <==> '\n' in body;
    assert t[..|t| - 1] == body;
  }

  // The lines are the rows exactly when there are no other newlines.
  lemma TableLines(rs: seq<Line>)
    ensures var text := Flatten(LineTexts(rs));
      && (|Lines(text)| == |rs| ==> forall i | 0 <= i < |rs| :: NoNewline(rs[i]))
      && ((forall i | 0 <= i < |rs| :: NoNewline(rs[i])) ==> Lines(text) == LineTexts(rs) && Partial(text) == "")
  {
    var rows := LineTexts(rs);
    var text := Flatten(rows);
    forall i | 0 <= i < |rs|
      ensures multiset(rows[i])['\n'] >= 1
      ensures multiset(rows[i])['\n'] == 1 <==> NoNewline(rs[i])
      ensures IsLine(rows[i]) <==> NoNewline(rs[i])
    {
      LineNewlines(rs[i]);
    }
    assert |rows| == |rs|;
    hide LineText, LineTexts, NoNewline, IsLine, Lines, Partial, Flatten;
    LinesCount(text);
    FlattenCount(rows);
    if forall i | 0 <= i < |rs| :: NoNewline(rs[i]) {
      LinesUnique(rows, "");
      assert Flatten(rows) + "" == text;
    }
  }

  // A table reads back as its rows exactly when no field has a comma and nothing has a
  // newline.
  lemma TableIff(rs: seq<Line>, k: nat)
    requires forall i | 0 <= i < |rs| :: |rs[i].fs| == k
    ensures ReadTable(Flatten(LineTexts(rs)), k) == Some(rs) <==>
      forall i | 0 <= i < |rs| :: NoComma(rs[i]) && NoNewline(rs[i])
  {
    var text := Flatten(LineTexts(rs));
    TableLines(rs);
    ReadLinesAt(Lines(text), rs, k);
    forall i | 0 <= i < |rs|
      ensures ReadLine(LineTexts(rs)[i], k) == Some(rs[i]) <==> NoComma(rs[i])
    {
      ReadOne(rs[i], k);
    }
    assert |LineTexts(rs)| == |rs|;
    hide LineText, LineTexts, NoComma, NoNewline, ReadLine, ReadLines, Lines, Partial, Flatten;
  }

  // What a listing says of a command.
  function LineOf(f: Listing, c: Info, pid: string): Line {
    match f
    case Cmds => Line([], c.name)
    case Lcmds => Line([c.name, c.link, pid], c.cmdline)
    case Ttys => Line([c.link, pid, "cmd", c.name], c.cmdline)
  }

  function Listed(f: Listing, cs: seq<Info>, pid: string): seq<Line> {
    seq(|cs|, i requires 0 <= i < |cs| => LineOf(f, cs[i], pid))
  }

  // /ttys ends with the broadcast tty, with the number of commands, and the monitor's tty.
  function TtysListed(y: Yar): seq<Line> {
    var pid := Decimal(y.pid);
    Listed(Ttys, y.cmds, pid) + [Line([y.bcstlink, pid, "bcst", Decimal(|y.cmds|)], ""), Line([y.monlink, pid, "mon", ""], "")]
  }

  lemma JoinThree(a: string, b: string, c: string, rest: string)
    ensures Join([a, b, c], rest, ",") == a + "," + b + "," + c + "," + rest
  {
    assert Join([], rest, ",") == rest;
    assert [c][1..] == [] && [b, c][1..] == [c] && [a, b, c][1..] == [b, c];
    assert Join([c], rest, ",") == c + "," + rest;
    assert Join([b, c], rest, ",") == b + "," + (c + "," + rest);
  }

  lemma JoinFour(a: string, b: string, c: string, e: string, rest: string)
    ensures Join([a, b, c, e], rest, ",") == a + "," + b + "," + c + "," + e + "," + rest
  {
    JoinThree(b, c, e, rest);
    assert [a, b, c, e][1..] == [b, c, e];
  }

  lemma RowIs(f: Listing, c: Info, pid: string)
    ensures Row(f, c, pid) == LineText(LineOf(f, c, pid))
  {
    match f
    case Cmds =>
    case Lcmds => JoinThree(c.name, c.link, pid, c.cmdline);
    case Ttys => JoinFour(c.link, pid, "cmd", c.name, c.cmdline);
  }

  lemma RowsAre(f: Listing, cs: seq<Info>, pid: string)
    ensures Rows(f, cs, pid) == LineTexts(Listed(f, cs, pid))
  {
    forall i | 0 <= i < |cs| ensures Rows(f, cs, pid)[i] == LineTexts(Listed(f, cs, pid))[i] { RowIs(f, cs[i], pid); }
    hide Row, LineText, LineOf;
  }

  lemma {:induction false} DecimalDigits(n: nat, c: char)
    ensures c in Decimal(n) ==> '0' <= c <= '9'
  {
    if n >= 10 { DecimalDigits(n / 10, c); }
  }

  // The number that a string of digits stands for.
  function Value(s: string): int {
    if s == "" then 0 else 10 * Value(s[..|s| - 1]) + (s[|s| - 1] as int - '0' as int)
  }

  // Counts and pids read back, without leading zeros.
  lemma {:induction false} DecimalValue(n: nat)
    ensures Value(Decimal(n)) == n && |Decimal(n)| > 0 && (n > 0 ==> Decimal(n)[0] != '0')
  {
    if n < 10 {
      assert Decimal(n)[..0] == "";
    } else {
      DecimalValue(n / 10);
      var s := Decimal(n);
      assert s[..|s| - 1] == Decimal(n / 10);
    }
  }

  // /cmds reads back as the list of names exactly when no name has a newline.
  lemma CmdsIff(y: Yar)
    ensures ReadTable(CmdsText(y), 0) == Some(Listed(Cmds, y.cmds, Decimal(y.pid))) <==>
      forall i | 0 <= i < |y.cmds| :: '\n' !in y.cmds[i].name
  {
    var rs := Listed(Cmds, y.cmds, Decimal(y.pid));
    RowsAre(Cmds, y.cmds, Decimal(y.pid));
    TableIff(rs, 0);
    assert forall i | 0 <= i < |y.cmds| :: (NoComma(rs[i]) && NoNewline(rs[i])) == ('\n' !in y.cmds[i].name);
    hide ReadTable, LineTexts, Flatten, NoComma, NoNewline, Decimal;
  }

  // /lcmds reads back as the list of its commands exactly when no name and no link has a
  // comma and no field has a newline.
  lemma ListingIff(y: Yar)
    ensures ReadTable(LcmdsText(y), 3) == Some(Listed(Lcmds, y.cmds, Decimal(y.pid))) <==>
      forall i | 0 <= i < |y.cmds| ::
        var c := y.cmds[i];
        ',' !in c.name && ',' !in c.link && '\n' !in c.name && '\n' !in c.link && '\n' !in c.cmdline
  {
    var pid := Decimal(y.pid);
    var rs := Listed(Lcmds, y.cmds, pid);
    RowsAre(Lcmds, y.cmds, pid);
    TableIff(rs, 3);
    DecimalDigits(y.pid, ',');
    DecimalDigits(y.pid, '\n');
    hide ReadTable, LineTexts, Flatten, Decimal;
    forall i | 0 <= i < |y.cmds|
      ensures var c := y.cmds[i];
        (NoComma(rs[i]) && NoNewline(rs[i])) ==
        (',' !in c.name && ',' !in c.link && '\n' !in c.name && '\n' !in c.link && '\n' !in c.cmdline)
    {
      ThreeFields(y.cmds[i].name, y.cmds[i].link, pid, y.cmds[i].cmdline);
    }
    hide NoComma, NoNewline, LineOf;
  }

  lemma ThreeFields(a: string, b: string, c: string, rest: string)
    ensures NoComma(Line([a, b, c], rest)) <==> ',' !in a && ',' !in b && ',' !in c
    ensures NoNewline(Line([a, b, c], rest)) <==> '\n' !in a && '\n' !in b && '\n' !in c && '\n' !in rest
  {
    assert a in [a, b, c] && b in [a, b, c] && c in [a, b, c];
  }

  lemma FourFields(a: string, b: string, c: string, e: string, rest: string)
    ensures NoComma(Line([a, b, c, e], rest)) <==> ',' !in a && ',' !in b && ',' !in c && ',' !in e
    ensures NoNewline(Line([a, b, c, e], rest)) <==> '\n' !in a && '\n' !in b && '\n' !in c && '\n' !in e && '\n' !in rest
  {
    assert a in [a, b, c, e] && b in [a, b, c, e] && c in [a, b, c, e] && e in [a, b, c, e];
  }

  lemma TtysTextIs(y: Yar)
    ensures TtysText(y) == Flatten(LineTexts(TtysListed(y))) && forall i | 0 <= i < |TtysListed(y)| :: |TtysListed(y)[i].fs| == 4
  {
    var pid := Decimal(y.pid);
    var rows, rs := LineTexts(Listed(Ttys, y.cmds, pid)), Listed(Ttys, y.cmds, pid);
    var b, m := Line([y.bcstlink, pid, "bcst", Decimal(|y.cmds|)], ""), Line([y.monlink, pid, "mon", ""], "");
    RowsAre(Ttys, y.cmds, pid);
    JoinFour(y.bcstlink, pid, "bcst", Decimal(|y.cmds|), "");
    JoinFour(y.monlink, pid, "mon", "", "");
    assert BcstRow(y) == LineText(b);
    assert MonRow(y) == LineText(m);
    hide LineText, Decimal, BcstRow, MonRow, Rows;
    assert LineTexts(TtysListed(y)) == (rows + [LineText(b)]) + [LineText(m)];
    FlattenSnoc(rows, LineText(b));
    FlattenSnoc(rows + [LineText(b)], LineText(m));
    hide Flatten, LineTexts;
  }

  // /ttys reads back as the ttys of the commands, of the broadcast and of the monitor,
  // exactly when no link and no name has a comma and nothing has a newline.
  lemma TtysIff(y: Yar)
    ensures ReadTable(TtysText(y), 4) == Some(TtysListed(y)) <==>
      && (forall i | 0 <= i < |y.cmds| ::
            var c := y.cmds[i];
            ',' !in c.name && ',' !in c.link && '\n' !in c.name && '\n' !in c.link && '\n' !in c.cmdline)
      && ',' !in y.bcstlink && '\n' !in y.bcstlink && ',' !in y.monlink && '\n' !in y.monlink
  {
    hide *;
    TtysTextIs(y);
    TableIff(TtysListed(y), 4);
    TtysFields(y);
  }

  lemma TtysFields(y: Yar)
    ensures (forall i | 0 <= i < |TtysListed(y)| :: NoComma(TtysListed(y)[i]) && NoNewline(TtysListed(y)[i])) <==>
      && (forall i | 0 <= i < |y.cmds| ::
            var c := y.cmds[i];
            ',' !in c.name && ',' !in c.link && '\n' !in c.name && '\n' !in c.link && '\n' !in c.cmdline)
      && ',' !in y.bcstlink && '\n' !in y.bcstlink && ',' !in y.monlink && '\n' !in y.monlink
  {
    var pid, rs, n := Decimal(y.pid), TtysListed(y), |y.cmds|;
    DecimalDigits(y.pid, ',');
    DecimalDigits(y.pid, '\n');
    DecimalDigits(n, ',');
    DecimalDigits(n, '\n');
    FourFields(y.bcstlink, pid, "bcst", Decimal(n), "");
    FourFields(y.monlink, pid, "mon", "", "");
    assert |rs| == n + 2;
    assert rs[n] == Line([y.bcstlink, pid, "bcst", Decimal(n)], "") && rs[n + 1] == Line([y.monlink, pid, "mon", ""], "");
    forall i | 0 <= i < n
      ensures var c := y.cmds[i];
        (NoComma(rs[i]) && NoNewline(rs[i])) ==
        (',' !in c.name && ',' !in c.link && '\n' !in c.name && '\n' !in c.link && '\n' !in c.cmdline)
    {
      FourFields(y.cmds[i].link, pid, "cmd", y.cmds[i].name, y.cmds[i].cmdline);
      assert rs[i] == LineOf(Ttys, y.cmds[i], pid);
    }
    hide Decimal, NoComma, NoNewline, TtysListed;
  }
}
