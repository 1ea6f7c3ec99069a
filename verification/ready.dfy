// The ready-string matcher of cmdttyProcessOutput (cmd.c:73-98).
module Ready {

  // One output byte: a match advances, a mismatch restarts and drops the byte.
  function Advance(ready: string, cnt: nat, c: char): nat {
    if cnt >= |ready| then cnt
    else if ready[cnt] == c then cnt + 1
    else 0
  }

  // The last byte of the ready string, while it is awaited.
  predicate Completes(ready: string, cnt: nat, c: char) {
    cnt < |ready| && ready[cnt] == c && cnt + 1 == |ready|
  }

  function MatchFrom(ready: string, cnt: nat, out: string): nat {
    if out == "" then cnt
    else Advance(ready, MatchFrom(ready, cnt, out[..|out| - 1]), out[|out| - 1])
  }

  // The counter after a process has produced out since its start.
  function Match(ready: string, out: string): nat {
    MatchFrom(ready, 0, out)
  }

  ghost predicate OccursAt(ready: string, out: string, i: nat) {
    i + |ready| <= |out| && out[i..i + |ready|] == ready
  }

  ghost predicate Occurs(ready: string, out: string) {
    exists i: nat :: OccursAt(ready, out, i)
  }

  lemma MatchSnoc(ready: string, cnt: nat, out: string, c: char)
    ensures MatchFrom(ready, cnt, out + [c]) == Advance(ready, MatchFrom(ready, cnt, out), c)
  {
    assert (out + [c])[..|out|] == out;
  }

  lemma {:induction false} MatchConcat(ready: string, cnt: nat, a: string, b: string)
    ensures MatchFrom(ready, cnt, a + b) == MatchFrom(ready, MatchFrom(ready, cnt, a), b)
  {
    if b == "" {
      assert a + b == a;
    } else {
      var b' := b[..|b| - 1];
      MatchConcat(ready, cnt, a, b');
      assert (a + b)[..|a + b| - 1] == a + b';
    }
  }

  // What a counter of k says of the output so far.
  ghost predicate Sound(ready: string, out: string, k: nat) {
    && k <= |ready| && k <= |out|
    && (k < |ready| ==> out[|out| - k..] == ready[..k])
    && (k == |ready| ==> Occurs(ready, out))
  }

  lemma SoundStep(ready: string, front: string, c: char, k: nat)
    requires Sound(ready, front, k)
    ensures Sound(ready, front + [c], Advance(ready, k, c))
  {
    var out := front + [c];
    if k == |ready| {
      var i: nat :| OccursAt(ready, front, i);
      assert out[i..i + |ready|] == front[i..i + |ready|];
      assert OccursAt(ready, out, i);
    } else if ready[k] == c {
      assert out[|out| - (k + 1)..] == front[|front| - k..] + [c];
      assert ready[..k + 1] == ready[..k] + [c];
      if k + 1 == |ready| {
        assert ready[..k + 1] == ready;
        assert OccursAt(ready, out, |out| - |ready|);
      }
    }
  }

  // Soundness: a counter of k < |ready| means the output ends with the first k
  // bytes of the ready string; a full counter means the string occurred.
  lemma {:induction false} MatchSound(ready: string, out: string)
    ensures Sound(ready, out, Match(ready, out))
  {
    if out == "" {
      assert |ready| == 0 ==> OccursAt(ready, out, 0);
    } else {
      var front, c := out[..|out| - 1], out[|out| - 1];
      MatchSound(ready, front);
      SoundStep(ready, front, c, Match(ready, front));
      assert front + [c] == out;
    }
  }

  lemma {:induction false} MatchSticks(ready: string, out: string, more: string)
    requires Match(ready, out) == |ready|
    ensures Match(ready, out + more) == |ready|
  {
    if more == "" {
      assert out + more == out;
    } else {
      MatchSticks(ready, out, more[..|more| - 1]);
      MatchConcat(ready, 0, out, more);
      MatchConcat(ready, 0, out, more[..|more| - 1]);
    }
  }

  // The counter grows by at most one a byte.
  lemma {:induction false} MatchBound(ready: string, cnt: nat, out: string)
    ensures MatchFrom(ready, cnt, out) <= cnt + |out|
  {
    if out != "" { MatchBound(ready, cnt, out[..|out| - 1]); }
  }

  ghost predicate Constant(ready: string) {
    forall i | 0 <= i < |ready| :: ready[i] == ready[0]
  }

  // Does the matcher notice every occurrence of this ready string?
  ghost predicate Complete(ready: string) {
    forall out | Occurs(ready, out) :: Match(ready, out) == |ready|
  }

  lemma {:induction false} MatchConstantRun(ready: string, cnt: nat, run: string)
    requires Constant(ready) && cnt <= |ready| && |run| <= |ready|
    requires forall i | 0 <= i < |run| :: run[i] == ready[0]
    ensures |run| <= MatchFrom(ready, cnt, run) <= |ready|
  {
    if run != "" { MatchConstantRun(ready, cnt, run[..|run| - 1]); }
  }

  lemma ConstantIsComplete(ready: string)
    requires Constant(ready)
    ensures Complete(ready)
  {
    forall out | Occurs(ready, out) ensures Match(ready, out) == |ready| {
      var i: nat :| OccursAt(ready, out, i);
      ConstantFinds(ready, out[..i], out[i + |ready|..]);
      assert out == out[..i] + ready + out[i + |ready|..];
    }
  }

  lemma ConstantFinds(ready: string, a: string, b: string)
    requires Constant(ready)
    ensures Match(ready, a + ready + b) == |ready|
  {
    MatchSound(ready, a);
    MatchConcat(ready, 0, a, ready);
    MatchConstantRun(ready, Match(ready, a), ready);
    MatchSticks(ready, a + ready, b);
  }

  // The first byte repeated k times, then once too often.
  lemma {:induction false} MatchPrefix(ready: string, k: nat)
    requires k <= |ready|
    ensures Match(ready, ready[..k]) == k
  {
    if k > 0 {
      MatchPrefix(ready, k - 1);
      assert ready[..k][..k - 1] == ready[..k - 1];
    }
  }

  // The missed output: the first byte of the ready string, then the ready string.
  lemma NonConstantMisses(ready: string, k: nat)
    requires k < |ready| && ready[k] != ready[0]
    requires forall i | 0 <= i < k :: ready[i] == ready[0]
    ensures Occurs(ready, [ready[0]] + ready)
    ensures Match(ready, [ready[0]] + ready) < |ready|
  {
    var out := [ready[0]] + ready;
    assert OccursAt(ready, out, 1);
    var a, b := ready[..k] + [ready[0]], ready[k..];
    assert out == a + b;
    MatchPrefix(ready, k);
    MatchSnoc(ready, 0, ready[..k], ready[0]);
    MatchConcat(ready, 0, a, b);
    MatchBound(ready, 0, b);
  }

  // The matcher is not a substring search: a mismatching byte is not retried as a
  // first byte. It finds every occurrence exactly when all bytes of the ready
  // string are the same.
  lemma CompleteIffConstant(ready: string)
    ensures Complete(ready) <==> Constant(ready)
  {
    if Constant(ready) {
      ConstantIsComplete(ready);
    } else {
      var k: nat :| k < |ready| && ready[k] != ready[0];
      var j := 0;
      while ready[j] == ready[0]
        invariant j <= k
        invariant forall i | 0 <= i < j :: ready[i] == ready[0]
        decreases k - j
      {
        j := j + 1;
      }
      NonConstantMisses(ready, j);
    }
  }
}
