// One command's byte-by-byte processing as a fold, and what draining a queue amounts to.
module Drains {
  import opened Relay
  import opened Text
  import Ready

  // What cmdttyProcessOutput leaves visible: the match counter, all output so far, the
  // buffered line, and the bytes offered to the client and the broadcast tty.
  datatype Seen = Seen(readycnt: nat, history: string, pending: string, clt: string, bcst: string)

  function Feed(mode: Mode, ready: string, name: string, s: Seen, c: char): Seen {
    Seen(Ready.Advance(ready, s.readycnt, c), s.history + [c], Keep(mode, s.pending, c),
         s.clt + [c], s.bcst + Offer(mode, name, s.pending, c))
  }

  function Fold(mode: Mode, ready: string, name: string, s: Seen, q: string): Seen {
    if q == "" then s
    else Feed(mode, ready, name, Fold(mode, ready, name, s, q[..|q| - 1]), q[|q| - 1])
  }

  lemma FoldNone(mode: Mode, ready: string, name: string, s: Seen)
    ensures Fold(mode, ready, name, s, "") == s
  {}

  lemma FoldSnoc(mode: Mode, ready: string, name: string, s: Seen, done: string, rest: string)
    requires rest != ""
    ensures Fold(mode, ready, name, s, done + [rest[0]])
      == Feed(mode, ready, name, Fold(mode, ready, name, s, done), rest[0])
    ensures done + rest == (done + [rest[0]]) + rest[1..]
  {
    assert (done + [rest[0]])[..|done|] == done;
  }

  // Does reading q complete the ready string?
  ghost predicate Finds(ready: string, cnt: nat, q: string) {
    cnt < |ready| && Ready.MatchFrom(ready, cnt, q) == |ready|
  }

  lemma FindsNext(ready: string, cnt: nat, q: string, c: char)
    ensures Finds(ready, cnt, q + [c]) <==> Finds(ready, cnt, q) || Ready.Completes(ready, Ready.MatchFrom(ready, cnt, q), c)
    ensures Ready.Completes(ready, Ready.MatchFrom(ready, cnt, q), c) ==> !Finds(ready, cnt, q)
  {
    Ready.MatchSnoc(ready, cnt, q, c);
    if cnt >= |ready| { Full(ready, cnt, q); }
  }

  lemma {:induction false} Full(ready: string, cnt: nat, q: string)
    requires cnt >= |ready|
    ensures Ready.MatchFrom(ready, cnt, q) == cnt
  {
    if q != "" { Full(ready, cnt, q[..|q| - 1]); }
  }

  lemma {:induction false} FindsMore(ready: string, cnt: nat, q: string, more: string)
    requires Finds(ready, cnt, q)
    ensures Finds(ready, cnt, q + more)
  {
    if more == "" {
      assert q + more == q;
    } else {
      FindsMore(ready, cnt, q, more[..|more| - 1]);
      assert q + more == (q + more[..|more| - 1]) + [more[|more| - 1]];
      FindsNext(ready, cnt, q + more[..|more| - 1], more[|more| - 1]);
    }
  }

  lemma {:induction false} FoldCnt(mode: Mode, ready: string, name: string, s: Seen, q: string)
    ensures Fold(mode, ready, name, s, q).readycnt == Ready.MatchFrom(ready, s.readycnt, q)
  {
    if q != "" { FoldCnt(mode, ready, name, s, q[..|q| - 1]); }
  }

  // Part of a queue has been drained without the assert on the global count failing: seen
  // and count are what s0 and count0 have become, size is that of the table.
  ghost predicate Drained(mode: Mode, ready: string, name: string, seen: Seen, count: int, size: nat,
                          s0: Seen, count0: int, done: string)
  {
    && seen == Fold(mode, ready, name, s0, done)
    && count == count0 + (if Finds(ready, s0.readycnt, done) then 1 else 0)
    && !(Finds(ready, s0.readycnt, done) && count0 + 1 > size)
  }

  lemma DrainedNext(mode: Mode, ready: string, name: string, seen: Seen, count: int, size: nat,
                    s0: Seen, count0: int, done: string, c: char)
    requires Drained(mode, ready, name, seen, count, size, s0, count0, done)
    ensures var completes := Ready.Completes(ready, seen.readycnt, c);
      if completes && count + 1 > size then Finds(ready, s0.readycnt, done + [c]) && count0 + 1 > size
      else Drained(mode, ready, name, Feed(mode, ready, name, seen, c), count + (if completes then 1 else 0), size,
                   s0, count0, done + [c])
  {
    FoldCnt(mode, ready, name, s0, done);
    FindsNext(ready, s0.readycnt, done, c);
    FoldSnoc(mode, ready, name, s0, done, [c]);
    hide Ready.Completes, Feed, Finds;
  }

  // Draining a queue is the matcher run over it and the relay run with no other command
  // in between; the client is offered all of it.
  lemma {:induction false} FoldIsRun(mode: Mode, ready: string, name: string, s: Seen, q: string)
    ensures var r := Fold(mode, ready, name, s, q);
      && r.readycnt == Ready.MatchFrom(ready, s.readycnt, q)
      && r.history == s.history + q && r.clt == s.clt + q
      && Run(mode, Alone(name, s.pending, s.bcst), Bytes(name, q)) == Alone(name, r.pending, r.bcst)
  {
    if q == "" {
      assert s.history + q == s.history && s.clt + q == s.clt;
    } else {
      var front, c := q[..|q| - 1], q[|q| - 1];
      FoldIsRun(mode, ready, name, s, front);
      var f := Fold(mode, ready, name, s, front);
      assert q == front + [c];
      RunByte(mode, name, Alone(name, s.pending, s.bcst), front, c);
      StepAlone(mode, name, f.pending, f.bcst, c);
      Assoc(s.history, front, [c]);
      Assoc(s.clt, front, [c]);
    }
  }
}
