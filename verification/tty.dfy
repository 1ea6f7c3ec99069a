// tty_t (tty.h, tty.c): open counting, paced reads, and writes that are delivered
// when someone has the tty open and discarded otherwise. The pty itself is two
// byte queues.
module Ttys {
  import opened Text

  const DISCARDS: nat := 1024        // sizeof(discards)
  const INT_MAX: int := 0x7fff_ffff

  // ttyReadChar's pacing test (tty.c:351-358): may the next byte be read?
  predicate Due(last: real, delay: real, now: real)
    ensures Due(last, delay, now) <==> delay <= 0.0 || now - last >= delay
  {
    !(delay > 0.0 && now - last < delay)
  }

  // Where a byte written to a command came from, and when it was delivered.
  datatype Kind = Client | Bcst | StopString

  datatype Delivery = Delivery(at: real, kind: Kind)

  // A 64-bit value assigned to an int (tty.c:321-322).
  function AsInt(w: int): int {
    var low := w % 0x1_0000_0000;
    if low <= INT_MAX then low else low - 0x1_0000_0000
  }

  // The bytes of discards that a discarding write of len bytes fills: offset and count.
  // The subtraction is done on size_t and its result cut to an int (tty.c:322).
  function Window(wdbytes: nat, len: nat): (int, nat) {
    var used := AsInt(wdbytes);
    var left := AsInt(DISCARDS - used);
    var free := if left < 0 then 0 else left;
    (used, if len <= free then len else free)
  }

  lemma AsIntRange(w: int)
    ensures -INT_MAX - 1 <= AsInt(w) <= INT_MAX
    ensures -INT_MAX - 1 <= w <= INT_MAX ==> AsInt(w) == w
    ensures INT_MAX < w <= INT_MAX + 1 + DISCARDS ==> AsInt(w) < 0
  {}

  // The copy stays inside discards exactly while the counter does not read as negative,
  // except that for the 1025 most negative values the space left wraps around as well, and
  // nothing is copied.
  lemma WindowInside(wdbytes: nat, len: nat)
    requires len > 0
    ensures var (used, n) := Window(wdbytes, len);
      (n > 0 ==> 0 <= used && used + n <= DISCARDS) <==>
      AsInt(wdbytes) >= 0 || AsInt(wdbytes) <= DISCARDS - INT_MAX - 1
  {
    AsIntRange(wdbytes);
    AsIntRange(DISCARDS - AsInt(wdbytes));
    hide AsInt;
  }

  lemma WindowAt(wdbytes: nat, len: nat)
    ensures var (used, n) := Window(wdbytes, len);
      && (used >= 0 && n > 0 ==> used + n <= DISCARDS)
      && (wdbytes <= INT_MAX ==> used == wdbytes)
      && (wdbytes <= INT_MAX ==> n == if DISCARDS <= wdbytes then 0 else if len <= DISCARDS - wdbytes then len else DISCARDS - wdbytes)
  {
    AsIntRange(wdbytes);
    AsIntRange(DISCARDS - AsInt(wdbytes));
    hide AsInt;
  }

  class Tty {
    var opens: nat
    var rbytes: nat
    var wbytes: nat
    var wdbytes: nat
    var delaycnt: nat
    const discards: array<char>
    var inq: string            // written by the other side, not yet read by yar
    ghost var outq: string     // delivered to the other side
    ghost var lost: string     // discarded
    ghost var offered: string  // both, in the order of the writes

    // Sizes are fixed at creation.
    ghost predicate Sized() { discards.Length == DISCARDS }

    // The counters count, and discards holds the first discarded bytes.
    ghost predicate Valid()
      reads this, discards
    {
      && Sized()
      && wbytes == |outq| && wdbytes == |lost| && |offered| == wbytes + wdbytes
      && (wdbytes <= INT_MAX ==> FirstLost())
    }

    ghost predicate FirstLost()
      requires Sized()
      reads this, discards
    {
      forall i | 0 <= i < DISCARDS && i < |lost| :: discards[i] == lost[i]
    }

    constructor ()
      ensures Valid() && fresh(discards)
      ensures opens == 0 && inq == "" && offered == ""
    {
      opens, rbytes, wbytes, wdbytes, delaycnt := 0, 0, 0, 0, 0;
      discards := new char[DISCARDS];
      inq, outq, lost, offered := "", "", "", "";
    }

    // ttyCreate: a new pty, with its counters reset.
    method Create()
      modifies `opens, `rbytes, `wbytes, `inq
      ensures opens == 0 && inq == ""
      ensures old(Valid()) && outq == "" ==> Valid()
    {
      opens, rbytes, wbytes, inq := 0, 0, 0, "";
    }

    // ttyNotifyEvent (tty.c:50-79).
    method NotifyEvent(isOpen: bool)
      modifies `opens
      ensures opens == if isOpen then old(opens) + 1 else if old(opens) > 0 then old(opens) - 1 else 0
    {
      if isOpen {
        opens := opens + 1;
      } else if opens > 0 {
        opens := opens - 1;
      }
    }

    // ttyWriteBuf with a full write; stamped tells whether the caller's timestamp is set.
    method WriteBuf(data: string) returns (n: nat, stamped: bool)
      requires Sized()
      modifies this, discards
      ensures n == |data| && (stamped <==> opens != 0)
      ensures opens == old(opens) && inq == old(inq) && rbytes == old(rbytes) && delaycnt == old(delaycnt)
      ensures offered == old(offered) + data
      ensures outq == old(outq) + if opens != 0 then data else ""
      ensures lost == old(lost) + if opens != 0 then "" else data
      ensures old(Valid()) ==> Valid()
    {
      offered := offered + data;
      if opens != 0 {
        outq := outq + data;
        wbytes := wbytes + |data|;
        stamped := true;
      } else {
        WindowAt(wdbytes, |data|);
        hide Window;
        var (used, nb) := Window(wdbytes, |data|);
        if used >= 0 {
          // memcpy
          forall i | 0 <= i < nb { discards[used + i] := data[i]; }
        }
        lost := lost + data;
        wdbytes := wdbytes + |data|;
        stamped := false;
      }
      n := |data|;
    }

    // ttyReadChar: 0 when paced, -1 when there is nothing to read (EAGAIN), else 1.
    method ReadChar(last: Option<real>, delay: real, now: real) returns (n: int, c: char)
      modifies this
      ensures opens == old(opens) && wbytes == old(wbytes) && wdbytes == old(wdbytes)
        && outq == old(outq) && lost == old(lost) && offered == old(offered)
      ensures last.Some? && delay > 0.0 && now - last.value < delay ==>
        n == 0 && inq == old(inq) && delaycnt == old(delaycnt) + 1
      ensures last.None? || delay <= 0.0 || now - last.value >= delay ==> delaycnt == old(delaycnt)
      ensures (last.None? || delay <= 0.0 || now - last.value >= delay) && old(inq) == "" ==> n == -1 && inq == ""
      ensures (last.None? || delay <= 0.0 || now - last.value >= delay) && old(inq) != "" ==>
        n == 1 && c == old(inq)[0] && inq == old(inq)[1..]
      ensures rbytes == old(rbytes) + if n == 1 then 1 else 0
    {
      c := *;
      if last.Some? && delay > 0.0 {
        var diff := now - last.value;
        if diff < delay {
          delaycnt := delaycnt + 1;
          return 0, c;
        }
      }
      if inq == "" {
        n := -1;
      } else {
        n, c, inq := 1, inq[0], inq[1..];
        rbytes := rbytes + 1;
      }
    }
  }
}
