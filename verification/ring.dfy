// The circular output buffer of a command (cmd.h:8, cmd.c:26-38): byte k of the
// command's output is stored in slot k % CMD_BUFSIZE.
module Ring {
  import opened Relay

  function NtoI(n: nat): (i: nat)
    ensures i < CMD_BUFSIZE
  {
    n % CMD_BUFSIZE
  }

  // buf holds the last CMD_BUFSIZE bytes of the unbounded output.
  ghost predicate Holds(buf: seq<char>, output: string) {
    && |buf| == CMD_BUFSIZE
    && forall k | 0 <= k < |output| && |output| <= k + CMD_BUFSIZE :: buf[k % CMD_BUFSIZE] == output[k]
  }

  lemma SlotsDiffer(j: nat, k: nat)
    requires j < k < j + CMD_BUFSIZE
    ensures NtoI(j) != NtoI(k)
  {}

  lemma Store(buf: seq<char>, output: string, c: char)
    requires Holds(buf, output)
    ensures Holds(buf[NtoI(|output|) := c], output + [c])
  {
    var n := |output|;
    forall k | 0 <= k < n + 1 && n + 1 <= k + CMD_BUFSIZE
      ensures buf[NtoI(n) := c][k % CMD_BUFSIZE] == (output + [c])[k]
    {
      if k < n { SlotsDiffer(k, n); }
    }
  }

  // A stretch of recent output that does not cross the end of the buffer is a slice.
  lemma Slice(buf: seq<char>, output: string, lo: nat, hi: nat, at: nat)
    requires Holds(buf, output) && lo < hi <= |output| <= lo + CMD_BUFSIZE
    requires at == NtoI(lo) && at + (hi - lo) <= CMD_BUFSIZE
    ensures buf[at..at + (hi - lo)] == output[lo..hi]
  {
    var a, b := buf[at..at + (hi - lo)], output[lo..hi];
    forall i | 0 <= i < |a| ensures a[i] == b[i] {
      assert (lo + i) % CMD_BUFSIZE == at + i;
      assert output[lo + i] == buf[at + i];
    }
  }

  // bufof counts the wraps of the current line.
  lemma Wraps(bufstart: nat, bufn: nat)
    requires bufstart <= bufn
    ensures (bufn + 1 - bufstart) / CMD_BUFSIZE
      == (bufn - bufstart) / CMD_BUFSIZE + if NtoI(bufn + 1) == NtoI(bufstart) then 1 else 0
  {
    var d := bufn + 1 - bufstart;
    assert NtoI(bufn + 1) == NtoI(bufstart) <==> d % CMD_BUFSIZE == 0;
  }

  // The three shapes of a line that ends with the last byte of the output.

  lemma Contiguous(buf: seq<char>, output: string, start: nat)
    requires Holds(buf, output) && start < |output| < start + CMD_BUFSIZE
    requires NtoI(start) <= NtoI(|output| - 1)
    ensures buf[NtoI(start)..NtoI(|output| - 1) + 1] == Tail(output[start..])
  {
    var n := |output| - start;
    assert NtoI(|output| - 1) - NtoI(start) == n - 1;
    Slice(buf, output, start, |output|, NtoI(start));
  }

  // The first byte of a wrapping line that is stored at the start of the buffer.
  lemma Edge(start: nat, n: nat) returns (edge: nat)
    requires start < n < start + CMD_BUFSIZE && NtoI(n - 1) < NtoI(start)
    ensures start < edge < n && NtoI(edge) == 0
    ensures NtoI(start) + (edge - start) == CMD_BUFSIZE && n - edge == NtoI(n - 1) + 1
  {
    edge := start + (CMD_BUFSIZE - NtoI(start));
  }

  lemma Adjoin(s: string, i: nat, j: nat)
    requires i <= j <= |s|
    ensures s[i..j] + s[j..] == s[i..]
  {}

  lemma TwoPieces(buf: seq<char>, output: string, start: nat)
    requires Holds(buf, output) && start < |output| < start + CMD_BUFSIZE
    requires NtoI(|output| - 1) < NtoI(start)
    ensures buf[NtoI(start)..] + buf[..NtoI(|output| - 1) + 1] == Tail(output[start..])
  {
    hide Holds;
    Size(buf, output);
    var edge := Edge(start, |output|);
    Slice(buf, output, start, edge, NtoI(start));
    Slice(buf, output, edge, |output|, 0);
    TailCut(output, start);
    var a, z := NtoI(start), NtoI(|output| - 1) + 1;
    assert |buf| == CMD_BUFSIZE && a + (edge - start) == |buf| && |output| - edge == z;
    assert Tail(output[start..]) == output[start..];
    hide *;
    assert buf[a..] == buf[a..a + (edge - start)] == output[start..edge];
    assert buf[..z] == buf[0..0 + z] == output[edge..|output|] == output[edge..];
    Adjoin(output, start, edge);
  }

  lemma TailCut(output: string, start: nat)
    requires start <= |output|
    ensures Tail(output[start..])
      == if |output| - start <= CMD_BUFSIZE then output[start..] else output[|output| - CMD_BUFSIZE..]
  {}

  lemma Size(buf: seq<char>, output: string)
    requires Holds(buf, output)
    ensures |buf| == CMD_BUFSIZE
  {}

  // The oldest byte kept of an overflowed line, when it is not at the start of the buffer.
  lemma Oldest(n: nat)
    requires CMD_BUFSIZE <= n
    ensures var end := NtoI(n - 1);
      NtoI(n - (end + 1)) == 0 && (end + 1 < CMD_BUFSIZE ==> NtoI(n - CMD_BUFSIZE) == end + 1)
  {}

  lemma Overflowed(buf: seq<char>, output: string, start: nat)
    requires Holds(buf, output) && start + CMD_BUFSIZE <= |output|
    ensures buf[NtoI(|output| - 1) + 1..] + buf[..NtoI(|output| - 1) + 1] == Tail(output[start..])
  {
    hide Holds;
    Size(buf, output);
    var n, end := |output|, NtoI(|output| - 1);
    var lo, edge := n - CMD_BUFSIZE, n - (end + 1);
    Oldest(n);
    if end + 1 < CMD_BUFSIZE { Slice(buf, output, lo, edge, end + 1); }
    Slice(buf, output, edge, n, 0);
    hide *;
    assert buf[end + 1..] == output[lo..edge];
    assert buf[..end + 1] == output[edge..];
    Adjoin(output, lo, edge);
    TailCut(output, start);
  }
}
