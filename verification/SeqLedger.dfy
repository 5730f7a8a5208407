/** What the loss counters of one session mean: counting by gaps equals counting the numbers nobody carried. */
module SeqLedgers {
  import opened Prelude

  /** A packet as its session sees it: its first number, how many cycles, and when it came. */
  datatype Arrival = Arrival(seqNo: int, count: nat, at: int)

  /** `SessionSeqState`. */
  datatype SeqState = SeqState(nextSeq: int, received: int, lost: int, late: int, lastSeen: int)

  function Opened(seqNo: int): SeqState {
    SeqState(seqNo, 0, 0, 0, 0)
  }

  /** How far the packet is ahead of the expected number, modulo 2^32. */
  function GapOf(s: SeqState, a: Arrival): int {
    Mask(a.seqNo - s.nextSeq)
  }

  /** The packet counted into its session's state. */
  function Counted(s: SeqState, a: Arrival): SeqState {
    var gap := GapOf(s, a);
    var t := if gap < HALF then s.(lost := s.lost + gap, nextSeq := Mask(a.seqNo + a.count))
             else s.(late := s.late + a.count);
    t.(received := t.received + a.count, lastSeen := a.at)
  }

  /** The state a history of arrivals leaves. */
  function Account(h: seq<Arrival>): SeqState
    requires h != []
  {
    if |h| == 1 then Counted(Opened(h[0].seqNo), h[0])
    else Counted(Account(h[..|h| - 1]), h[|h| - 1])
  }

  // ---------------------------------------------------------------- the meaning, on unbounded numbers

  /** The next number expected after the first `n` arrivals, counting from the first and never wrapping. */
  function Expected(h: seq<Arrival>, n: nat): int
    requires n <= |h| && h != []
    decreases n, 0
  {
    if n == 0 then h[0].seqNo
    else if Ahead(h, n - 1) < HALF then Place(h, n - 1) + h[n - 1].count
    else Expected(h, n - 1)
  }

  function Ahead(h: seq<Arrival>, i: nat): int
    requires i < |h|
    decreases i, 1
  {
    Mask(h[i].seqNo - Expected(h, i))
  }

  /** Where the `i`-th arrival starts when it is on time. */
  function Place(h: seq<Arrival>, i: nat): int
    requires i < |h|
    decreases i, 2
  {
    Expected(h, i) + Ahead(h, i)
  }

  predicate OnTime(h: seq<Arrival>, i: nat)
    requires i < |h|
  {
    Ahead(h, i) < HALF
  }

  /** The number came with one of the first `n` arrivals, on time. */
  ghost predicate Carried(h: seq<Arrival>, n: nat, number: int)
    requires n <= |h|
  {
    exists i: nat :: i < n && OnTime(h, i) && Place(h, i) <= number < Place(h, i) + h[i].count
  }

  /** The numbers from the first up to the expected one that no arrival carried on time. */
  ghost function Missing(h: seq<Arrival>, n: nat): set<int>
    requires n <= |h| && h != []
  {
    set k | h[0].seqNo <= k < Expected(h, n) && !Carried(h, n, k)
  }

  function CycleCount(h: seq<Arrival>, n: nat): int
    requires n <= |h|
  {
    if n == 0 then 0 else CycleCount(h, n - 1) + h[n - 1].count
  }

  function LateCount(h: seq<Arrival>, n: nat): int
    requires n <= |h|
  {
    if n == 0 then 0 else LateCount(h, n - 1) + if OnTime(h, n - 1) then 0 else h[n - 1].count
  }

  lemma {:induction false} ExpectedPrefix(h: seq<Arrival>, m: nat, n: nat)
    requires 0 < m <= |h| && n <= m
    ensures Expected(h[..m], n) == Expected(h, n)
    ensures n < m ==> Ahead(h[..m], n) == Ahead(h, n)
  {
    if n > 0 {
      ExpectedPrefix(h, m, n - 1);
    }
  }

  /** The expected number only moves forward. */
  lemma {:induction false} ExpectedGrows(h: seq<Arrival>, m: nat, n: nat)
    requires h != [] && m <= n <= |h|
    ensures Expected(h, m) <= Expected(h, n)
  {
    if m < n {
      ExpectedGrows(h, m, n - 1);
    }
  }

  lemma CarriedBelow(h: seq<Arrival>, n: nat, number: int)
    requires h != [] && n <= |h| && Carried(h, n, number)
    ensures number < Expected(h, n)
  {
    var i: nat :| i < n && OnTime(h, i) && Place(h, i) <= number < Place(h, i) + h[i].count;
    ExpectedGrows(h, i + 1, n);
  }

  function Span(lo: int, hi: int): (s: set<int>)
    requires lo <= hi
    ensures |s| == hi - lo && forall k :: (k in s <==> lo <= k < hi)
    decreases hi - lo
  {
    if lo == hi then {} else Span(lo, hi - 1) + {hi - 1}
  }

  /** An arrival that is on time leaves behind exactly the numbers it skipped; a late one leaves nothing. */
  lemma MissingStep(h: seq<Arrival>, n: nat)
    requires n < |h|
    ensures |Missing(h, n + 1)| == |Missing(h, n)| + if OnTime(h, n) then Ahead(h, n) else 0
  {
    AllCarriedNext(h, n);
    if OnTime(h, n) {
      var skipped := Span(Expected(h, n), Place(h, n));
      ExpectedGrows(h, 0, n);
      forall k | k in skipped ensures !Carried(h, n, k) {
        if Carried(h, n, k) {
          CarriedBelow(h, n, k);
        }
      }
      hide Carried, Expected, CarriesNext;
      MissingSets(h, n, skipped);
    } else {
      assert Missing(h, n + 1) == Missing(h, n);
    }
  }

  /** What has been carried after one more arrival. */
  ghost predicate CarriesNext(h: seq<Arrival>, n: nat)
    requires n < |h|
  {
    forall k ::
      (Carried(h, n + 1, k) <==> Carried(h, n, k) || (OnTime(h, n) && Place(h, n) <= k < Place(h, n) + h[n].count))
  }

  lemma AllCarriedNext(h: seq<Arrival>, n: nat)
    requires n < |h|
    ensures CarriesNext(h, n)
  {
    forall k ensures Carried(h, n + 1, k)
      <==> Carried(h, n, k) || (OnTime(h, n) && Place(h, n) <= k < Place(h, n) + h[n].count)
    {
      CarriedNext(h, n, k);
    }
  }

  lemma MissingSets(h: seq<Arrival>, n: nat, skipped: set<int>)
    requires n < |h| && OnTime(h, n) && h[0].seqNo <= Expected(h, n)
    requires skipped == Span(Expected(h, n), Place(h, n))
    requires forall k :: k in skipped ==> !Carried(h, n, k)
    requires CarriesNext(h, n)
    ensures |Missing(h, n + 1)| == |Missing(h, n)| + Ahead(h, n)
  {
    hide Carried;
    assert Expected(h, n + 1) == Place(h, n) + h[n].count;
    forall k ensures k in Missing(h, n + 1) <==> k in Missing(h, n) || k in skipped {
      assert Carried(h, n + 1, k) <==> Carried(h, n, k) || Place(h, n) <= k < Place(h, n) + h[n].count;
    }
    assert Missing(h, n + 1) == Missing(h, n) + skipped;
    assert Missing(h, n) !! skipped;
  }

  lemma CarriedNext(h: seq<Arrival>, n: nat, k: int)
    requires n < |h|
    ensures Carried(h, n + 1, k)
       <==> Carried(h, n, k) || (OnTime(h, n) && Place(h, n) <= k < Place(h, n) + h[n].count)
  {
    hide OnTime, Place;
  }

  lemma MaskTwice(a: int, e: int)
    ensures Mask(a - Mask(e)) == Mask(a - e)
    ensures Mask(Mask(e)) == Mask(e)
  {
    var k := e / FULL;
    assert e == k * FULL + Mask(e);
    AddMultiple(a - e, k);
  }

  lemma AddMultiple(x: int, k: int)
    ensures Mask(x + k * FULL) == Mask(x)
  {
    var q := x / FULL;
    assert x == q * FULL + x % FULL;
    assert x + k * FULL == (q + k) * FULL + x % FULL;
    Unique(x + k * FULL, q + k, x % FULL);
  }

  lemma Unique(x: int, q: int, r: int)
    requires x == q * FULL + r && 0 <= r < FULL
    ensures x % FULL == r
  {}

  /** The counters are what they claim to be: everything received, everything late, and exactly the missing numbers. */
  lemma {:induction false} AccountMeans(h: seq<Arrival>)
    requires h != [] && forall i :: 0 <= i < |h| ==> IsU32(h[i].seqNo)
    ensures var s, n := Account(h), |h|;
      && s.nextSeq == Mask(Expected(h, n))
      && s.received == CycleCount(h, n) && s.late == LateCount(h, n) && s.lost == |Missing(h, n)|
      && s.received - s.late + s.lost == Expected(h, n) - h[0].seqNo
      && s.lastSeen == h[n - 1].at
  {
    var n := |h| - 1;
    assert Missing(h, 0) == {};
    MissingStep(h, n);
    if n == 0 {
      assert Ahead(h, 0) == 0;
      assert Counted(Opened(h[0].seqNo), h[0]).lost == 0;
    } else {
      var front := h[..n];
      AccountMeans(front);
      PrefixMeans(h, n);
      MaskTwice(h[n].seqNo, Expected(h, n));
      assert GapOf(Account(front), h[n]) == Ahead(h, n);
    }
    if OnTime(h, n) {
      NextMask(h, n);
    }
  }

  lemma NextMask(h: seq<Arrival>, n: nat)
    requires n < |h| && OnTime(h, n)
    ensures Mask(Expected(h, n + 1)) == Mask(h[n].seqNo + h[n].count)
  {
    var d := h[n].seqNo - Expected(h, n);
    var k := d / FULL;
    assert d == k * FULL + Mask(d);
    assert Expected(h, n + 1) == h[n].seqNo + h[n].count + (-k) * FULL;
    AddMultiple(h[n].seqNo + h[n].count, -k);
  }

  /** The first arrivals mean the same whether or not more follow. */
  lemma PrefixMeans(h: seq<Arrival>, m: nat)
    requires 0 < m <= |h|
    ensures Expected(h[..m], m) == Expected(h, m) && CycleCount(h[..m], m) == CycleCount(h, m)
    ensures LateCount(h[..m], m) == LateCount(h, m) && Missing(h[..m], m) == Missing(h, m)
  {
    ExpectedPrefix(h, m, m);
    CountsPrefix(h, m, m);
    forall k ensures Carried(h[..m], m, k) <==> Carried(h, m, k) {
      CarriedPrefix(h, m, k);
    }
  }

  lemma {:induction false} CountsPrefix(h: seq<Arrival>, m: nat, n: nat)
    requires 0 < m <= |h| && n <= m
    ensures CycleCount(h[..m], n) == CycleCount(h, n) && LateCount(h[..m], n) == LateCount(h, n)
  {
    if n > 0 {
      CountsPrefix(h, m, n - 1);
      ExpectedPrefix(h, m, n - 1);
    }
  }

  lemma CarriedPrefix(h: seq<Arrival>, m: nat, k: int)
    requires 0 < m <= |h|
    ensures Carried(h[..m], m, k) <==> Carried(h, m, k)
  {
    forall i: nat | i < m
      ensures OnTime(h[..m], i) == OnTime(h, i) && Place(h[..m], i) == Place(h, i) && h[..m][i] == h[i]
    {
      ExpectedPrefix(h, m, i);
    }
    hide OnTime, Place;
    if Carried(h[..m], m, k) {
      var i: nat :| i < m && OnTime(h[..m], i) && Place(h[..m], i) <= k < Place(h[..m], i) + h[..m][i].count;
      assert OnTime(h, i) && Place(h, i) <= k < Place(h, i) + h[i].count;
    }
    if Carried(h, m, k) {
      var i: nat :| i < m && OnTime(h, i) && Place(h, i) <= k < Place(h, i) + h[i].count;
      assert OnTime(h[..m], i) && Place(h[..m], i) <= k < Place(h[..m], i) + h[..m][i].count;
    }
  }

  /** When the sender's true number is within 2^31 of the expected one, the packet is placed where it belongs. */
  lemma PlacedWhereSent(h: seq<Arrival>, i: nat, sent: int)
    requires i < |h| && h[i].seqNo == Mask(sent) && -HALF <= sent - Expected(h, i) < HALF
    ensures OnTime(h, i) <==> sent >= Expected(h, i)
    ensures OnTime(h, i) ==> Place(h, i) == sent
  {
    var e := Expected(h, i);
    var k := sent / FULL;
    assert sent == k * FULL + Mask(sent);
    assert h[i].seqNo - e == sent - e + (-k) * FULL;
    AddMultiple(sent - e, -k);
    if sent < e {
      AddMultiple(sent - e, 1);
    }
  }
}
