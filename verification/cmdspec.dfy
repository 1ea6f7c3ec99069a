// Command specs, "name,[pty link],[log],[delay],command line": strsep and cmdspecParse
// (main.c:360-439), which cut the NUL-terminated string in place.
module Cmdspec {
  import opened Text

  const NUL := '\0'

  // ---- C strings ----

  // Where the string that starts at p ends.
  function End(s: seq<char>, p: nat): (e: nat)
    requires p <= |s|
    ensures p <= e <= |s| && NUL !in s[p..e] && (e < |s| ==> s[e] == NUL)
    decreases |s| - p
  {
    if p == |s| || s[p] == NUL then p
    else
      var e := End(s, p + 1);
      assert s[p..e] == [s[p]] + s[p + 1..e];
      e
  }

  // A terminated string starts at p.
  predicate IsStr(s: seq<char>, p: nat) { p <= |s| && End(s, p) < |s| }

  function Str(s: seq<char>, p: nat): string
    requires IsStr(s, p)
  {
    s[p..End(s, p)]
  }

  lemma EndIs(s: seq<char>, p: nat, e: nat)
    requires p <= e < |s| && NUL !in s[p..e] && s[e] == NUL
    ensures IsStr(s, p) && End(s, p) == e
  {
    var d := End(s, p);
    assert forall k | p <= k < e :: s[k] == s[p..e][k - p];
    assert forall k | p <= k < d :: s[k] == s[p..d][k - p];
  }

  // A string that ends before q only depends on what comes before q.
  lemma StrKept(s: seq<char>, t: seq<char>, p: nat, q: nat)
    requires IsStr(s, p) && End(s, p) < q <= |s| == |t| && s[..q] == t[..q]
    ensures IsStr(t, p) && End(t, p) == End(s, p) && Str(t, p) == Str(s, p)
  {
    var e := End(s, p);
    assert t[p..e] == t[..q][p..e] == s[..q][p..e] == s[p..e];
    assert t[e] == t[..q][e] == s[..q][e];
    EndIs(t, p, e);
  }

  // ---- strsep ----

  // What strsep(&p, ",") does to the string at p.
  ghost predicate Separated(s: seq<char>, t: seq<char>, p: nat, p': Option<nat>)
    requires IsStr(s, p)
  {
    && |t| == |s| && t[..p] == s[..p] && IsStr(t, p)
    && match Cut(Str(s, p), ",")
       case None => p' == None && t == s
       case Some((head, rest)) =>
         && p'.Some? && IsStr(t, p'.value) && End(t, p) < p'.value
         && Str(t, p) == head && Str(t, p'.value) == rest
  }

  lemma SeparatedAt(s: seq<char>, p: nat, i: nat)
    requires IsStr(s, p) && p <= i < End(s, p) && s[i] == ',' && ',' !in s[p..i]
    ensures Separated(s, s[i := NUL], p, Some(i + 1))
  {
    var t, e := s[i := NUL], End(s, p);
    Pieces(s, p, i, e);
    Head(s, p, i);
    Rest(s, p, i);
    assert Str(s, p) == s[p..e];
    hide Str, End, IsStr, Cut;
    CutChar(Str(s, p), ',', s[p..i], s[i + 1..e]);
    assert t[..p] == s[..p];
  }

  lemma Head(s: seq<char>, p: nat, i: nat)
    requires IsStr(s, p) && p <= i < End(s, p)
    ensures var t := s[i := NUL]; IsStr(t, p) && End(t, p) == i && Str(t, p) == s[p..i]
  {
    var t := s[i := NUL];
    assert t[p..i] == s[p..End(s, p)][..i - p];
    EndIs(t, p, i);
    assert t[p..i] == s[p..i];
  }

  lemma Rest(s: seq<char>, p: nat, i: nat)
    requires IsStr(s, p) && p <= i < End(s, p)
    ensures var t := s[i := NUL]; IsStr(t, i + 1) && Str(t, i + 1) == s[i + 1..End(s, p)]
  {
    var t, e := s[i := NUL], End(s, p);
    assert t[i + 1..e] == s[p..e][i + 1 - p..];
    EndIs(t, i + 1, e);
    assert t[i + 1..e] == s[i + 1..e];
  }

  lemma Pieces(s: seq<char>, p: nat, i: nat, e: nat)
    requires p <= i < e <= |s| && s[i] == ','
    ensures s[p..e] == s[p..i] + "," + s[i + 1..e]
  {}

  method Strsep(a: array<char>, p: nat) returns (p': Option<nat>)
    requires IsStr(a[..], p)
    modifies a
    ensures Separated(old(a[..]), a[..], p, p')
  {
    ghost var s := a[..];
    var i := p;
    while a[i] != NUL && a[i] != ','
      invariant p <= i <= End(s, p) && a[..] == s && ',' !in s[p..i]
      decreases a.Length - i
    {
      assert s[p..i + 1] == s[p..i] + [s[i]];
      i := i + 1;
    }
    if a[i] == NUL {
      EndIs(s, p, i) by { assert s[p..i] == s[p..End(s, p)][..i - p]; }
      CutChar(Str(s, p), ',', "", "");
      p' := None;
    } else {
      SeparatedAt(s, p, i);
      a[i] := NUL;
      p' := Some(i + 1);
    }
  }

  // ---- cmdspecParse ----

  // stat on the link, strtod on the delay (None where it sets errno), and -d's value.
  datatype Env = Env(taken: string -> bool, strtod: string -> Option<real>, defaultcmddelay: real)

  datatype Spec = Spec(name: string, ttylink: Option<string>, log: Option<string>, delay: real, cmdline: string)

  function Given(text: string): Option<string> { if text == "" then None else Some(text) }

  predicate Acceptable(fs: seq<string>, rest: string, env: Env)
    requires |fs| == 4
  {
    && (fs[1] != "" ==> !env.taken(fs[1]))
    && (fs[3] != "" ==> env.strtod(fs[3]).Some?)
    && rest != ""
  }

  function Fields(fs: seq<string>, rest: string, env: Env): Spec
    requires |fs| == 4 && Acceptable(fs, rest, env)
  {
    Spec(fs[0], Given(fs[1]), Given(fs[2]), if fs[3] == "" then env.defaultcmddelay else env.strtod(fs[3]).value, rest)
  }

  // The value of cmdspecParse on the text s.
  function Parse(s: string, env: Env): Option<Spec> {
    match Split(s, 4, ",")
    case None => None
    case Some((fs, rest)) => if Acceptable(fs, rest, env) then Some(Fields(fs, rest, env)) else None
  }

  // A spec is accepted exactly when it is four comma-free fields and a non-empty rest
  // joined by commas, with a link that does not exist and a delay that converts; and then
  // these are its fields, whatever the rest holds.
  lemma ParseIff(s: string, env: Env, fs: seq<string>, rest: string)
    requires |fs| == 4 && Clean(fs, ',')
    ensures s == Join(fs, rest, ",") ==>
      (Parse(s, env).Some? <==>
        (fs[1] == "" || !env.taken(fs[1])) && (fs[3] == "" || env.strtod(fs[3]).Some?) && rest != "")
    ensures s == Join(fs, rest, ",") && Parse(s, env).Some? ==>
      var spec := Parse(s, env).value;
      && spec.name == fs[0] && spec.cmdline == rest
      && spec.ttylink == (if fs[1] == "" then None else Some(fs[1]))
      && spec.log == (if fs[2] == "" then None else Some(fs[2]))
      && spec.delay == (if fs[3] == "" then env.defaultcmddelay else env.strtod(fs[3]).value)
    ensures Parse(s, env).Some? ==> exists gs, r :: |gs| == 4 && Clean(gs, ',') && s == Join(gs, r, ",")
    ensures Parse(s, env).Some? ==> multiset(s)[','] >= 4
  {
    SplitIff(s, ',', fs, rest);
    SplitCount(s, ',', 4);
    if Parse(s, env).Some? {
      var (gs, r) := Split(s, 4, ",").value;
      SplitIff(s, ',', gs, r);
    }
  }

  // Where the fields start in the cut string.
  datatype Refs = Refs(name: nat, ttylink: Option<nat>, log: Option<nat>, delay: real, cmdline: nat)

  ghost predicate Refers(s: seq<char>, p: Option<nat>, text: Option<string>) {
    match p
    case None => text == None
    case Some(i) => IsStr(s, i) && text == Some(Str(s, i))
  }

  ghost predicate RefersTo(s: seq<char>, r: Refs, spec: Spec) {
    && Refers(s, Some(r.name), Some(spec.name)) && Refers(s, r.ttylink, spec.ttylink)
    && Refers(s, r.log, spec.log) && r.delay == spec.delay && Refers(s, Some(r.cmdline), Some(spec.cmdline))
  }

  // Of orig, the fields at ps have been cut off; the rest starts at p.
  ghost predicate Cutting(orig: string, s: seq<char>, ps: seq<nat>, p: nat) {
    && IsStr(s, p) && (forall q | q in ps :: IsStr(s, q) && End(s, q) < p)
    && Split(orig, |ps|, ",") == Some((Strs(s, ps), Str(s, p)))
  }

  ghost function Strs(s: seq<char>, ps: seq<nat>): (r: seq<string>)
    requires forall q | q in ps :: IsStr(s, q)
    ensures |r| == |ps| && forall k | 0 <= k < |ps| :: r[k] == Str(s, ps[k])
  {
    if ps == [] then [] else Strs(s, ps[..|ps| - 1]) + [Str(s, ps[|ps| - 1])]
  }

  lemma CutOne(orig: string, s: seq<char>, t: seq<char>, ps: seq<nat>, p: nat, p': Option<nat>)
    requires Cutting(orig, s, ps, p) && Separated(s, t, p, p')
    ensures if p'.None? then Split(orig, |ps| + 1, ",").None? else Cutting(orig, t, ps + [p], p'.value)
  {
    SplitSnoc(orig, |ps|, ",");
    if p'.Some? {
      forall q | q in ps ensures IsStr(t, q) && End(t, q) == End(s, q) && Str(t, q) == Str(s, q) {
        StrKept(s, t, q, p);
      }
      var qs := ps + [p];
      assert Strs(t, qs) == Strs(s, ps) + [Str(t, p)];
    }
  }

  lemma CutAll(orig: string, s: seq<char>, ps: seq<nat>, p: nat, env: Env)
    requires Cutting(orig, s, ps, p) && |ps| == 4
    ensures forall k | 0 <= k < 4 :: IsStr(s, ps[k])
    ensures Parse(orig, env) ==
      var fs := [Str(s, ps[0]), Str(s, ps[1]), Str(s, ps[2]), Str(s, ps[3])];
      if Acceptable(fs, Str(s, p), env) then Some(Fields(fs, Str(s, p), env)) else None
  {
    assert Strs(s, ps) == [Str(s, ps[0]), Str(s, ps[1]), Str(s, ps[2]), Str(s, ps[3])];
  }

  // A missing comma, or a link that exists.
  lemma Rejected(orig: string, k: nat, env: Env)
    requires 1 <= k <= 4 && Split(orig, k, ",").None?
    ensures Parse(orig, env).None?
  {
    SplitCount(orig, ',', k);
    SplitCount(orig, ',', 4);
  }

  lemma {:induction false} SplitPrefix(s: string, j: nat, k: nat, sep: string)
    requires j <= k && Split(s, k, sep).Some?
    ensures Split(s, j, sep).Some? && Split(s, j, sep).value.0 == Split(s, k, sep).value.0[..j]
    decreases k
  {
    if j > 0 {
      var (h, t) := Cut(s, sep).value;
      SplitPrefix(t, j - 1, k - 1, sep);
      assert ([h] + Split(t, k - 1, sep).value.0)[..j] == [h] + Split(t, k - 1, sep).value.0[..j - 1];
    }
  }

  lemma LinkTaken(orig: string, s: seq<char>, ps: seq<nat>, p: nat, env: Env)
    requires Cutting(orig, s, ps, p) && |ps| == 2 && Str(s, ps[1]) != "" && env.taken(Str(s, ps[1]))
    ensures Parse(orig, env).None?
  {
    if Split(orig, 4, ",").Some? {
      SplitPrefix(orig, 2, 4, ",");
      assert Split(orig, 4, ",").value.0[..2][1] == Split(orig, 4, ",").value.0[1];
    }
  }

  lemma FirstChar(s: seq<char>, p: nat)
    requires IsStr(s, p)
    ensures p < |s| && (s[p] == NUL <==> Str(s, p) == "")
  {
    if p < End(s, p) { assert s[p] == s[p..End(s, p)][0]; }
  }

  // strsep on the rest of a spec; the next field started at p.
  method Next(a: array<char>, p: nat, ghost orig: string, ghost ps: seq<nat>, ghost env: Env) returns (p': Option<nat>)
    requires Cutting(orig, a[..], ps, p) && |ps| < 4
    modifies a
    ensures if p'.None? then Parse(orig, env).None? else Cutting(orig, a[..], ps + [p], p'.value)
  {
    hide Parse, Separated;
    ghost var s := a[..];
    p' := Strsep(a, p);
    CutOne(orig, s, a[..], ps, p, p');
    if p'.None? { Rejected(orig, |ps| + 1, env); }
  }

  lemma AllStrings(orig: string, s: seq<char>, ps: seq<nat>, p: nat)
    requires Cutting(orig, s, ps, p)
    ensures IsStr(s, p) && forall q | q in ps :: IsStr(s, q) && q < |s|
  {}

  // The second field, if there is one, may become a link.
  ghost predicate LinkFree(orig: string, env: Env) {
    Split(orig, 2, ",").Some? && var link := Split(orig, 2, ",").value.0[1]; link != "" ==> !env.taken(link)
  }

  // What the last tests decide (main.c:384-388, 403-408, 416-435).
  lemma Decided(orig: string, s: seq<char>, ps: seq<nat>, p: nat, env: Env, delay: Option<real>)
    requires Cutting(orig, s, ps, p) && |ps| == 4
    requires forall q | q in ps :: IsStr(s, q)
    requires LinkFree(orig, env)
    requires delay == if s[ps[3]] == NUL then Some(env.defaultcmddelay) else env.strtod(Str(s, ps[3]))
    ensures p < |s|
    ensures Parse(orig, env).Some? <==> delay.Some? && s[p] != NUL
    ensures delay.Some? && s[p] != NUL ==>
      RefersTo(s, Refs(ps[0], Ref(s, ps[1]), Ref(s, ps[2]), delay.value, p), Parse(orig, env).value)
  {
    CutAll(orig, s, ps, p, env);
    SplitPrefix(orig, 2, 4, ",");
    assert Strs(s, ps)[..2][1] == Str(s, ps[1]);
    FirstChar(s, ps[1]);
    FirstChar(s, ps[2]);
    FirstChar(s, ps[3]);
    FirstChar(s, p);
    hide Parse, Cutting, Str, IsStr;
  }

  // NULL for an empty field.
  function Ref(s: seq<char>, p: nat): Option<nat>
    requires p < |s|
  {
    if s[p] == NUL then None else Some(p)
  }

  // The log and delay fields and the command line, once name and link are cut off
  // (main.c:397-435).
  method ParseRest(a: array<char>, p1: nat, p2: nat, env: Env, ghost orig: string) returns (r: Option<Refs>)
    requires Cutting(orig, a[..], [0, p1], p2) && LinkFree(orig, env)
    modifies a
    ensures r.Some? <==> Parse(orig, env).Some?
    ensures r.Some? ==> RefersTo(a[..], r.value, Parse(orig, env).value)
  {
    hide *;
    var p3 := Next(a, p2, orig, [0, p1], env);
    if p3.None? { return None; }
    assert [0, p1] + [p2] == [0, p1, p2];
    var p4 := Next(a, p3.value, orig, [0, p1, p2], env);
    if p4.None? { return None; }
    ghost var ps := [0, p1, p2, p3.value];
    assert [0, p1, p2] + [p3.value] == ps;
    AllStrings(orig, a[..], ps, p4.value);
    assert p1 in ps && p2 in ps && p3.value in ps;
    var delay := Some(env.defaultcmddelay);
    if a[p3.value] != NUL { delay := env.strtod(Str(a[..], p3.value)); }
    Decided(orig, a[..], ps, p4.value, env, delay);
    if delay.None? || a[p4.value] == NUL { return None; }
    r := Some(Refs(0, Ref(a[..], p1), Ref(a[..], p2), delay.value, p4.value));
  }

  // cmdspecParse
  method CmdspecParse(a: array<char>, env: Env) returns (r: Option<Refs>)
    requires IsStr(a[..], 0)
    modifies a
    ensures r.Some? <==> Parse(old(Str(a[..], 0)), env).Some?
    ensures r.Some? ==> RefersTo(a[..], r.value, Parse(old(Str(a[..], 0)), env).value)
  {
    ghost var orig := Str(a[..], 0);
    assert Cutting(orig, a[..], [], 0);
    hide *;
    var p1 := Next(a, 0, orig, [], env);
    if p1.None? { return None; }
    assert [] + [0] == [0];
    var p2 := Next(a, p1.value, orig, [0], env);
    if p2.None? { return None; }
    ghost var ps := [0, p1.value];
    assert [0] + [p1.value] == ps;
    AllStrings(orig, a[..], ps, p2.value);
    assert p1.value in ps;
    LinkFound(orig, a[..], ps, p2.value, env);
    if a[p1.value] != NUL && env.taken(Str(a[..], p1.value)) { return None; }
    r := ParseRest(a, p1.value, p2.value, env, orig);
  }

  lemma LinkFound(orig: string, s: seq<char>, ps: seq<nat>, p: nat, env: Env)
    requires Cutting(orig, s, ps, p) && |ps| == 2 && IsStr(s, ps[1]) && ps[1] < |s|
    ensures s[ps[1]] != NUL && env.taken(Str(s, ps[1])) ==> Parse(orig, env).None?
    ensures !(s[ps[1]] != NUL && env.taken(Str(s, ps[1]))) ==> LinkFree(orig, env)
  {
    FirstChar(s, ps[1]);
    if s[ps[1]] != NUL && env.taken(Str(s, ps[1])) { LinkTaken(orig, s, ps, p, env); }
  }
}
