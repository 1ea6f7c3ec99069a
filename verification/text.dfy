// Text helpers shared by the relay and by the synthetic files: the completed
// lines of a stream, and the first occurrence of a separator in a line.
module Text {

  datatype Option<+T> = None | Some(value: T)

  // The text after the last newline.
  function Partial(s: string): string {
    if s == "" || s[|s| - 1] == '\n' then ""
    else Partial(s[..|s| - 1]) + [s[|s| - 1]]
  }

  // The completed lines, each with its newline.
  function Lines(s: string): seq<string> {
    if s == "" then []
    else
      var init := s[..|s| - 1];
      if s[|s| - 1] == '\n' then Lines(init) + [Partial(init) + "\n"] else Lines(init)
  }

  function Flatten(ls: seq<string>): string {
    if ls == [] then "" else Flatten(ls[..|ls| - 1]) + ls[|ls| - 1]
  }

  function Total(ls: seq<string>): nat {
    if ls == [] then 0 else Total(ls[..|ls| - 1]) + |ls[|ls| - 1]|
  }

  // Exactly one newline, at the end.
  predicate IsLine(l: string) {
    l != "" && l[|l| - 1] == '\n' && '\n' !in l[..|l| - 1]
  }

  lemma Assoc(a: string, b: string, c: string)
    ensures (a + b) + c == a + (b + c)
  {}

  lemma FlattenSnoc(ls: seq<string>, l: string)
    ensures Flatten(ls + [l]) == Flatten(ls) + l
    ensures Total(ls + [l]) == Total(ls) + |l|
  {
    assert (ls + [l])[..|ls|] == ls;
  }

  lemma {:induction false} PartialHasNoNewline(s: string)
    ensures '\n' !in Partial(s)
  {
    if s != "" && s[|s| - 1] != '\n' { PartialHasNoNewline(s[..|s| - 1]); }
  }

  // Lines and Partial cut the stream: nothing is lost and every piece is a line.
  lemma {:induction false} LinesCut(s: string)
    ensures Flatten(Lines(s)) + Partial(s) == s
    ensures forall l | l in Lines(s) :: IsLine(l)
    ensures '\n' !in Partial(s)
  {
    PartialHasNoNewline(s);
    if s != "" {
      var init := s[..|s| - 1];
      LinesCut(init);
      LinesCutText(s);
      if s[|s| - 1] == '\n' {
        assert IsLine(Partial(init) + "\n");
      }
    }
  }

  lemma LinesCutText(s: string)
    requires s != ""
    requires var init := s[..|s| - 1]; Flatten(Lines(init)) + Partial(init) == init
    ensures Flatten(Lines(s)) + Partial(s) == s
  {
    var init, c := s[..|s| - 1], s[|s| - 1];
    var a, b := Flatten(Lines(init)), Partial(init);
    assert s == init + [c];
    assert Lines(s) == if c == '\n' then Lines(init) + [b + "\n"] else Lines(init);
    assert Partial(s) == if c == '\n' then "" else b + [c];
    FlattenSnoc(Lines(init), b + "\n");
    hide *;
    Assoc(a, b, [c]);
    assert a + (b + [c]) + "" == a + (b + [c]);
  }

  // A byte that is no newline.
  lemma LinesSnoc(s: string, c: char)
    requires c != '\n'
    ensures Lines(s + [c]) == Lines(s) && Partial(s + [c]) == Partial(s) + [c]
  {
    assert (s + [c])[..|s|] == s;
  }

  lemma {:induction false} LinesExtend(s: string, w: string)
    requires '\n' !in w
    ensures Lines(s + w) == Lines(s)
    ensures Partial(s + w) == Partial(s) + w
  {
    if w == "" {
      assert s + w == s;
    } else {
      var w' := w[..|w| - 1];
      LinesExtend(s, w');
      var c := w[|w| - 1];
      assert s + w == (s + w') + [c];
      LinesSnoc(s + w', c);
      hide Lines, Partial;
      assert Partial(s) + w == (Partial(s) + w') + [c];
    }
  }

  lemma LinesNewline(s: string)
    ensures Lines(s + "\n") == Lines(s) + [Partial(s) + "\n"]
    ensures Partial(s + "\n") == ""
  {
    assert (s + "\n")[..|s|] == s;
  }

  // Appending a whole line to a stream that ends at a line boundary appends that line.
  lemma LinesAppend(s: string, l: string)
    requires Partial(s) == "" && IsLine(l)
    ensures Lines(s + l) == Lines(s) + [l]
    ensures Partial(s + l) == ""
  {
    var body := l[..|l| - 1];
    assert l == body + "\n";
    LinesExtend(s, body);
    assert "" + body == body;
    LinesNewline(s + body);
    assert s + l == (s + body) + "\n";
  }

  // The cut is the only one: any list of lines with that text and rest is Lines(s).
  lemma {:induction false} LinesUnique(ls: seq<string>, rest: string)
    requires forall l | l in ls :: IsLine(l)
    requires '\n' !in rest
    ensures Lines(Flatten(ls) + rest) == ls
    ensures Partial(Flatten(ls) + rest) == rest
  {
    if ls == [] {
      assert Flatten(ls) + rest == "" + rest;
      LinesExtend("", rest);
    } else {
      var front, l := ls[..|ls| - 1], ls[|ls| - 1];
      LinesUnique(front, "");
      assert Flatten(front) + "" == Flatten(front);
      LinesAppend(Flatten(front), l);
      LinesExtend(Flatten(ls), rest);
    }
  }

  lemma {:induction false} LinesCount(s: string)
    ensures |Lines(s)| == multiset(s)['\n']
  {
    if s != "" {
      var init := s[..|s| - 1];
      LinesCount(init);
      assert s == init + [s[|s| - 1]];
    }
  }

  // If no piece lacks a newline and there are as many newlines as pieces, each has one.
  lemma {:induction false} FlattenCount(ls: seq<string>)
    requires forall l | l in ls :: multiset(l)['\n'] >= 1
    ensures multiset(Flatten(ls))['\n'] >= |ls|
    ensures multiset(Flatten(ls))['\n'] == |ls| ==> forall l | l in ls :: multiset(l)['\n'] == 1
  {
    if ls != [] {
      var front, l := ls[..|ls| - 1], ls[|ls| - 1];
      FlattenCount(front);
      assert ls == front + [l];
      assert multiset(Flatten(ls)) == multiset(Flatten(front)) + multiset(l);
    }
  }

  lemma {:induction false} Subset<T>(a: set<T>, b: set<T>)
    requires a <= b
    ensures |a| <= |b|
    ensures |a| == |b| ==> a == b
  {
    if a != {} {
      var x :| x in a;
      Subset(a - {x}, b - {x});
    }
  }

  predicate SepAt(s: string, i: nat, sep: string) {
    i + |sep| <= |s| && s[i..i + |sep|] == sep
  }

  ghost predicate Lacks(s: string, sep: string) {
    forall i: nat :: !SepAt(s, i, sep)
  }

  // Position of the first occurrence of sep at or after i.
  function Find(s: string, i: nat, sep: string): (r: Option<nat>)
    ensures r.Some? ==> i <= r.value && SepAt(s, r.value, sep)
    ensures r.Some? ==> forall j: nat | i <= j < r.value :: !SepAt(s, j, sep)
    ensures r.None? ==> forall j: nat | i <= j :: !SepAt(s, j, sep)
    decreases |s| - i
  {
    if |s| < i + |sep| then None
    else if SepAt(s, i, sep) then Some(i)
    else if i < |s| then Find(s, i + 1, sep) else None
  }

  // head, sep, rest: the cut at the first separator.
  function Cut(s: string, sep: string): Option<(string, string)> {
    match Find(s, 0, sep)
    case None => None
    case Some(i) => Some((s[..i], s[i + |sep|..]))
  }

  // The first k fields of s and what follows them.
  function Split(s: string, k: nat, sep: string): (r: Option<(seq<string>, string)>)
    ensures r.Some? ==> |r.value.0| == k
  {
    if k == 0 then Some(([], s))
    else match Cut(s, sep)
      case None => None
      case Some((head, rest)) =>
        var r := Split(rest, k - 1, sep);
        if r.None? then None else Some(([head] + r.value.0, r.value.1))
  }

  function Join(fs: seq<string>, rest: string, sep: string): string {
    if fs == [] then rest else fs[0] + sep + Join(fs[1..], rest, sep)
  }

  ghost predicate Clean(fs: seq<string>, c: char) {
    forall f | f in fs :: c !in f
  }

  lemma LacksChar(s: string, c: char)
    ensures Lacks(s, [c]) <==> c !in s
  {
    if c in s {
      var i :| 0 <= i < |s| && s[i] == c;
      assert SepAt(s, i, [c]);
    } else {
      forall i: nat ensures !SepAt(s, i, [c]) {
        if i < |s| { assert s[i..i + 1][0] == s[i]; }
      }
    }
  }

  // The cut at a single character is the one decomposition with a head free of it.
  lemma CutChar(s: string, c: char, head: string, rest: string)
    ensures Cut(s, [c]) == Some((head, rest)) <==> c !in head && s == head + [c] + rest
    ensures Cut(s, [c]).None? <==> c !in s
  {
    LacksChar(s, c);
    if Cut(s, [c]).Some? {
      var i := Find(s, 0, [c]).value;
      assert s == s[..i] + s[i..i + 1] + s[i + 1..];
      forall j: nat | j < i ensures s[j] != c { assert !SepAt(s, j, [c]); assert s[j..j + 1] == [s[j]]; }
    }
    if c !in head && s == head + [c] + rest {
      assert s[|head|..|head| + 1] == [c];
      assert SepAt(s, |head|, [c]);
      var i := Find(s, 0, [c]).value;
      assert s[i..i + 1][0] == s[i];
      assert i == |head|;
      assert s[..i] == head && s[i + 1..] == rest;
    }
  }

  // Splitting and joining undo each other.
  lemma {:induction false} SplitIff(s: string, c: char, fs: seq<string>, rest: string)
    ensures Split(s, |fs|, [c]) == Some((fs, rest)) <==> Clean(fs, c) && s == Join(fs, rest, [c])
    decreases |fs|
  {
    if fs != [] {
      var tail := Join(fs[1..], rest, [c]);
      CutChar(s, c, fs[0], tail);
      assert fs == [fs[0]] + fs[1..];
      if Cut(s, [c]).Some? {
        var (h, t) := Cut(s, [c]).value;
        SplitIff(t, c, fs[1..], rest);
        CutChar(s, c, h, t);
        if Split(s, |fs|, [c]) == Some((fs, rest)) {
          var r := Split(t, |fs| - 1, [c]).value;
          assert ([h] + r.0)[1..] == r.0;
        }
      }
    }
  }

  // One more field.
  lemma {:induction false} SplitSnoc(s: string, k: nat, sep: string)
    ensures Split(s, k + 1, sep) ==
      match Split(s, k, sep)
      case None => None
      case Some((fs, rest)) =>
        match Cut(rest, sep)
        case None => None
        case Some((head, rest')) => Some((fs + [head], rest'))
    decreases k
  {
    if Cut(s, sep).Some? {
      var (h, t) := Cut(s, sep).value;
      if k == 0 {
        assert [h] + [] == [] + [h];
        return;
      }
      SplitSnoc(t, k - 1, sep);
      if Split(s, k + 1, sep).Some? {
        var (fs, rest) := Split(t, k - 1, sep).value;
        var head := Cut(rest, sep).value.0;
        assert [h] + (fs + [head]) == ([h] + fs) + [head];
      }
    }
  }

  // There are k fields exactly when there are k separators.
  lemma {:induction false} SplitCount(s: string, c: char, k: nat)
    ensures Split(s, k, [c]).Some? <==> multiset(s)[c] >= k
    decreases k
  {
    if k > 0 {
      CutChar(s, c, "", "");
      if Cut(s, [c]).Some? {
        var (h, t) := Cut(s, [c]).value;
        CutChar(s, c, h, t);
        SplitCount(t, c, k - 1);
        assert multiset(s) == multiset(h) + multiset{c} + multiset(t);
        assert c !in multiset(h);
      } else {
        assert c !in multiset(s);
      }
    }
  }
}
