/** Live and replay agree: unrolling cycle by cycle, and unrolling the stored session at once, give the same columns. */
module Agreement {
  import opened Prelude
  import opened Packets
  import opened LiveTypes
  import opened LiveSessions
  import opened TelemetryTables
  import opened Columns
  import opened Queries

  /** Counters as they come off the wire. */
  ghost predicate OffTheWire(a: seq<LiveCycle>) {
    forall i :: 0 <= i < |a| ==> IsU32(a[i].record.seqNo) && IsU32(a[i].record.tTagMs)
  }

  function RawSeqs(a: seq<LiveCycle>): set<int> {
    set i | 0 <= i < |a| :: a[i].record.seqNo
  }

  /** The row is the cycle's, whenever it was received. */
  ghost predicate StoredAs(row: FixRow, c: CycleRecord) {
    exists at :: row == FixRowOf(c, at)
  }

  /** The table holds one row per accepted cycle, that cycle's, and no other. */
  ghost predicate StoredExactly(rows: FixTable, a: seq<LiveCycle>) {
    && rows.Keys == RawSeqs(a) && |rows| == |a|
    && forall i :: 0 <= i < |a| ==> StoredAs(rows[a[i].record.seqNo], a[i].record)
  }

  /**
    When the batch rule can reproduce the streamed numbers: if it takes the session for wrapped, the session began in
    the upper half and has not come round to it again; if it does not, the counter has not passed 2^32.
   */
  predicate SameSide(a: seq<LiveCycle>) {
    a == [] ||
    if SeqWrapped(RawSeqs(a)) then a[0].seqN >= HALF && a[|a| - 1].seqN < FULL + HALF
    else a[|a| - 1].seqN < FULL
  }

  // ---------------------------------------------------------------- sequence numbers

  /** The unrolled number is the raw one plus whole turns of the counter. */
  lemma {:induction false} RawIsResidue(a: seq<LiveCycle>, i: nat)
    requires Chain(a) && OffTheWire(a) && i < |a|
    ensures a[i].record.seqNo == Mask(a[i].seqN)
  {
    if i > 0 {
      RawIsResidue(a, i - 1);
      assert Follows(a[i - 1], a[i]);
      ResidueStep(a[i - 1].seqN, a[i - 1].record.seqNo, a[i].record.seqNo);
    }
  }

  lemma ResidueStep(seqN: int, last: int, next: int)
    requires last == Mask(seqN) && IsU32(next)
    ensures Mask(seqN + Mask(next - last)) == next
  {}

  lemma {:induction false} FirstIsSmallest(a: seq<LiveCycle>, i: nat)
    requires Chain(a) && i < |a|
    ensures a[0].seqN <= a[i].seqN <= a[|a| - 1].seqN
  {
    if i > 0 {
      ChainIncreases(a, 0, i);
    }
    if i < |a| - 1 {
      ChainIncreases(a, i, |a| - 1);
    }
  }

  lemma SideDecides(seqN: int)
    ensures HALF <= seqN < FULL + HALF <==> SeqN(true, Mask(seqN)) == seqN
    ensures 0 <= seqN < FULL <==> SeqN(false, Mask(seqN)) == seqN
  {}

  /** The batch rule gives every cycle its streamed number exactly on the same side. */
  lemma SameNumbersIffSameSide(a: seq<LiveCycle>)
    requires Chain(a) && OffTheWire(a)
    ensures (forall i :: 0 <= i < |a| ==> SeqN(SeqWrapped(RawSeqs(a)), a[i].record.seqNo) == a[i].seqN) <==> SameSide(a)
  {
    var wrapped := SeqWrapped(RawSeqs(a));
    forall i | 0 <= i < |a|
      ensures SeqN(wrapped, a[i].record.seqNo) == a[i].seqN
         <==> if wrapped then HALF <= a[i].seqN < FULL + HALF else 0 <= a[i].seqN < FULL
      ensures 0 <= a[0].seqN <= a[i].seqN <= a[|a| - 1].seqN
    {
      RawIsResidue(a, i);
      SideDecides(a[i].seqN);
      FirstIsSmallest(a, i);
    }
    if a != [] {
      assert a[0].seqN == a[0].record.seqNo < FULL;
    }
  }

  /** The documented condition suffices: fewer than 2^31 apart, or just 2^31 apart across the wrap. */
  lemma ShortSessionsAreOnTheSameSide(a: seq<LiveCycle>)
    requires Chain(a) && OffTheWire(a) && a != []
    requires var span := a[|a| - 1].seqN - a[0].seqN;
      span < HALF || (span == HALF && a[|a| - 1].seqN >= FULL)
    ensures SameSide(a)
  {
    var first, last := a[0].seqN, a[|a| - 1].seqN;
    var keys := RawSeqs(a);
    RawIsResidue(a, |a| - 1);
    if last >= FULL {
      var high, low := a[0].record.seqNo, a[|a| - 1].record.seqNo;
      assert low == last - FULL;
      assert high in keys && low in keys && high - low > HALF - 1;
    } else {
      forall x, y | x in keys && y in keys ensures x - y <= HALF - 1 {
        var i :| 0 <= i < |a| && a[i].record.seqNo == x;
        var k :| 0 <= k < |a| && a[k].record.seqNo == y;
        RawIsResidue(a, i);
        RawIsResidue(a, k);
        FirstIsSmallest(a, i);
        FirstIsSmallest(a, k);
      }
    }
  }

  // ---------------------------------------------------------------- order

  ghost predicate Ascending(order: seq<int>, wrapped: bool) {
    forall i, j :: 0 <= i < j < |order| ==> SeqN(wrapped, order[i]) < SeqN(wrapped, order[j])
  }

  lemma {:induction false} InOrderAscends(keys: set<int>, wrapped: bool)
    requires AllU32(keys)
    ensures Ascending(InOrder(keys, wrapped), wrapped)
  {
    if keys != {} {
      var r := InOrder(keys, wrapped);
      var rest := InOrder(keys - {r[0]}, wrapped);
      assert r == [r[0]] + rest;
      InOrderAscends(keys - {r[0]}, wrapped);
      forall j | 0 < j < |r| ensures SeqN(wrapped, r[0]) < SeqN(wrapped, r[j]) {
        assert r[j] == rest[j - 1] && rest[j - 1] in rest;
        assert SeqN(wrapped, r[0]) <= SeqN(wrapped, r[j]);
        if SeqN(wrapped, r[0]) == SeqN(wrapped, r[j]) {
          SeqNInjective(wrapped, r[0], r[j]);
        }
      }
    }
  }

  lemma NoMembers(q: seq<int>)
    ensures q == [] || q[0] in q
  {}

  /** Two ascending listings of the same numbers are the same listing. */
  lemma {:induction false} AscendingIsUnique(p: seq<int>, q: seq<int>, wrapped: bool)
    requires Ascending(p, wrapped) && Ascending(q, wrapped)
    requires forall k :: k in p <==> k in q
    ensures p == q
  {
    if p == [] {
      NoMembers(q);
    } else {
      assert p[0] in p && p[0] in q;
      var i :| 0 <= i < |q| && q[i] == p[0];
      assert q[0] in q && q[0] in p;
      var j :| 0 <= j < |p| && p[j] == q[0];
      assert p[0] == q[0];
      assert p == [p[0]] + p[1..] && q == [q[0]] + q[1..];
      forall k ensures k in p[1..] <==> k in q[1..] {
        if k in p[1..] {
          var m :| 0 <= m < |p| - 1 && p[1..][m] == k;
          assert p[m + 1] == k && k in q;
        }
        if k in q[1..] {
          var m :| 0 <= m < |q| - 1 && q[1..][m] == k;
          assert q[m + 1] == k && k in p;
        }
      }
      AscendingIsUnique(p[1..], q[1..], wrapped);
    }
  }

  function RawOrder(a: seq<LiveCycle>): seq<int> {
    seq(|a|, i requires 0 <= i < |a| => a[i].record.seqNo)
  }

  /** The stored session, put in order, is the order the hub accepted it in. */
  lemma ReplayOrderIsLiveOrder(rows: FixTable, a: seq<LiveCycle>)
    requires Chain(a) && OffTheWire(a) && StoredExactly(rows, a) && SameSide(a)
    ensures AllU32(rows.Keys)
    ensures InOrder(rows.Keys, SeqWrapped(rows.Keys)) == RawOrder(a)
  {
    hide SeqWrapped, SeqN, InOrder, SameSide, FixRowOf, Chain;
    var wrapped := SeqWrapped(rows.Keys);
    SameNumbersIffSameSide(a);
    InOrderAscends(rows.Keys, wrapped);
    forall i, j | 0 <= i < j < |a| ensures SeqN(wrapped, RawOrder(a)[i]) < SeqN(wrapped, RawOrder(a)[j]) {
      ChainIncreases(a, i, j);
    }
    forall k ensures k in RawOrder(a) <==> k in rows.Keys {
      if k in rows.Keys {
        var i :| 0 <= i < |a| && a[i].record.seqNo == k;
        assert RawOrder(a)[i] == k;
      }
    }
    AscendingIsUnique(InOrder(rows.Keys, wrapped), RawOrder(a), wrapped);
  }

  // ---------------------------------------------------------------- times and periods

  /** Adding up the steps gives what counting the wraps gives. */
  lemma {:induction false} SameTimes(rows: FixTable, a: seq<LiveCycle>, i: nat)
    requires Chain(a) && OffTheWire(a) && StoredExactly(rows, a) && i < |a|
    ensures Indexes(RawOrder(a), rows)
    ensures TimeN(RawOrder(a), rows, i) == a[i].tMs
  {
    hide StoredAs, StoredExactly;
    var order := RawOrder(a);
    StoredTime(rows, a);
    if i > 0 {
      SameTimes(rows, a, i - 1);
      assert Follows(a[i - 1], a[i]);
    }
  }

  lemma StoredTime(rows: FixTable, a: seq<LiveCycle>)
    requires StoredExactly(rows, a)
    ensures forall i :: 0 <= i < |a| ==> a[i].record.seqNo in rows && rows[a[i].record.seqNo].tTagMs == a[i].record.tTagMs
  {
    forall i | 0 <= i < |a|
      ensures a[i].record.seqNo in rows && rows[a[i].record.seqNo].tTagMs == a[i].record.tTagMs
    {
      assert a[i].record.seqNo in RawSeqs(a);
    }
  }

  /** Position `i` of the stored session: number, time and period are the streamed ones. */
  lemma RowCounters(rows: FixTable, a: seq<LiveCycle>, i: nat)
    requires Chain(a) && OffTheWire(a) && StoredExactly(rows, a) && SameSide(a) && i < |a|
    ensures Indexes(RawOrder(a), rows)
    ensures var r := RowAt(RawOrder(a), rows, SeqWrapped(rows.Keys), i);
      r.seqN == a[i].seqN && r.tN == a[i].tMs && r.dt == a[i].dtMs && r.fix == rows[a[i].record.seqNo]
  {
    hide SeqWrapped, SeqN, SameSide, TimeN, StoredExactly, TStep;
    assert rows.Keys == RawSeqs(a) by {
      KeysAreRaws(rows, a);
    }
    SameNumbersIffSameSide(a);
    SameTimes(rows, a, i);
    if i > 0 {
      SameTimes(rows, a, i - 1);
      assert Follows(a[i - 1], a[i]);
      ChainIncreases(a, i - 1, i);
    }
  }

  lemma KeysAreRaws(rows: FixTable, a: seq<LiveCycle>)
    requires StoredExactly(rows, a)
    ensures rows.Keys == RawSeqs(a)
    ensures forall i :: 0 <= i < |a| ==> a[i].record.seqNo in rows
  {}

  lemma RowIsCycle(rows: FixTable, a: seq<LiveCycle>, i: nat)
    requires Chain(a) && OffTheWire(a) && StoredExactly(rows, a) && SameSide(a) && i < |a|
    ensures AllU32(rows.Keys) && |Normalized(rows)| == |a|
    ensures var r := Normalized(rows)[i];
      r.seqN == a[i].seqN && r.tN == a[i].tMs && r.dt == a[i].dtMs && StoredPoint(r) == LivePoint(a[i])
  {
    hide SeqWrapped, SeqN, InOrder, SameSide, RowAt, FixRowOf, PointOf, InputOfRow, InputOfCycle, Chain;
    ReplayOrderIsLiveOrder(rows, a);
    RowCounters(rows, a, i);
    var at :| rows[a[i].record.seqNo] == FixRowOf(a[i].record, at);
    StoredPointIsLivePoint(a[i].record, at, a[i].tMs, a[i].seqN, a[i].dtMs);
  }

  /** What an un-decimated replay of the whole session shows. */
  function Replay(rows: FixTable): seq<FixPoint>
    requires AllU32(rows.Keys)
  {
    StoredPoints(Normalized(rows))
  }

  /**
    The whole session, read back undecimated, shows entry for entry what the live columns show,
    exactly when the session lies on the same side of the counter's wrap for both rules.
   */
  lemma LiveAndReplayAgree(rows: FixTable, a: seq<LiveCycle>)
    requires Chain(a) && OffTheWire(a) && StoredExactly(rows, a)
    ensures AllU32(rows.Keys)
    ensures Replay(rows) == LivePoints(a) <==> SameSide(a)
  {
    hide SameSide, Normalized, LivePoint, StoredPoint, Chain;
    KeysAreRaws(rows, a);
    if SameSide(a) {
      forall i | 0 <= i < |a| ensures Replay(rows)[i] == LivePoints(a)[i] {
        RowIsCycle(rows, a, i);
      }
      assert |Replay(rows)| == |a|;
    }
    if Replay(rows) == LivePoints(a) {
      AgreementShowsSide(rows, a);
    }
  }

  lemma ReplayNumber(rows: FixTable, i: nat)
    requires AllU32(rows.Keys) && i < |rows|
    ensures |Replay(rows)| == |rows| && exists k :: k in rows && Replay(rows)[i].seqN == SeqN(SeqWrapped(rows.Keys), k)
  {
    hide InOrder, SeqWrapped, SeqN, TimeN;
    var order := InOrder(rows.Keys, SeqWrapped(rows.Keys));
    assert order[i] in rows;
    assert Replay(rows)[i] == StoredPoint(Normalized(rows)[i]);
  }

  lemma AgreementShowsSide(rows: FixTable, a: seq<LiveCycle>)
    requires Chain(a) && OffTheWire(a) && StoredExactly(rows, a)
    requires AllU32(rows.Keys) && Replay(rows) == LivePoints(a)
    ensures SameSide(a)
  {
    hide Replay, SeqWrapped, Chain;
    KeysAreRaws(rows, a);
    if a != [] {
      ReplayNumber(rows, 0);
      ReplayNumber(rows, |a| - 1);
      assert LivePoints(a)[0].seqN == a[0].seqN && LivePoints(a)[|a| - 1].seqN == a[|a| - 1].seqN;
    }
  }

  /**
    Without a wrap, a distance of exactly 2^31 is where the two rules part. A fresh session accepts the two cycles and
    shows them as 0 and 2^31; their replay takes the session for wrapped and shows 2^31 and then 2^32.
   */
  lemma HalfRangeWithoutWrapDisagrees(s: Session, c: CycleRecord, d: CycleRecord, at: int)
    requires s.active && s.lastSeq == None && s.accepted == []
    requires c.seqNo == 0 && d.seqNo == HALF && IsU32(c.tTagMs) && IsU32(d.tTagMs)
    ensures var a := AcceptAll(s, [c, d]).accepted;
      var rows := map[0 := FixRowOf(c, at), HALF := FixRowOf(d, at)];
      && |a| == 2 && a[0].record == c && a[1].record == d && LivePoints(a)[0].seqN == 0 && LivePoints(a)[1].seqN == HALF
      && StoredExactly(rows, a) && AllU32(rows.Keys) && |Replay(rows)| == 2
      && Replay(rows)[0].seqN == HALF && Replay(rows)[1].seqN == FULL && Replay(rows) != LivePoints(a)
  {
    hide FixRowOf, StoredPoint, LivePoint, Replay, AcceptAll;
    BothAccepted(s, c, d);
    var rows := map[0 := FixRowOf(c, at), HALF := FixRowOf(d, at)];
    assert rows.Keys == {0, HALF};
    assert StoredAs(rows[0], c) && StoredAs(rows[HALF], d);
    var a := AcceptAll(s, [c, d]).accepted;
    assert RawSeqs(a) == {0, HALF} by {
      assert a[0].record.seqNo in RawSeqs(a) && a[1].record.seqNo in RawSeqs(a);
    }
    HalfRangeReplay(rows);
    assert LivePoint(a[0]).seqN == 0 && LivePoint(a[1]).seqN == HALF by {
      LiveNumber(a[0]);
      LiveNumber(a[1]);
    }
  }

  lemma LiveNumber(c: LiveCycle)
    ensures LivePoint(c).seqN == c.seqN
  {}

  lemma HalfRangeReplay(rows: FixTable)
    requires rows.Keys == {0, HALF}
    ensures AllU32(rows.Keys) && |Replay(rows)| == 2 && Replay(rows)[0].seqN == HALF && Replay(rows)[1].seqN == FULL
  {
    hide InOrder, TimeN;
    var keys := rows.Keys;
    assert HALF in keys && 0 in keys && HALF - 0 > HALF - 1;
    InOrderAscends(keys, true);
    AscendingIsUnique(InOrder(keys, true), [HALF, 0], true);
    assert Replay(rows)[0] == StoredPoint(Normalized(rows)[0]) && Replay(rows)[1] == StoredPoint(Normalized(rows)[1]);
  }

  lemma BothAccepted(s: Session, c: CycleRecord, d: CycleRecord)
    requires s.lastSeq == None && s.accepted == [] && c.seqNo == 0 && d.seqNo == HALF
    ensures AcceptAll(s, [c, d]).accepted
         == [LiveCycle(c, c.tTagMs, 0, None), LiveCycle(d, c.tTagMs + TStep(d.tTagMs, c.tTagMs), HALF, None)]
  {
    assert [c, d][..1] == [c] && [c][..0] == [];
    assert AcceptAll(s, [c]) == Accept(AcceptAll(s, []), c);
    assert AcceptAll(s, [c, d]) == Accept(AcceptAll(s, [c]), d);
  }

  /** The undecimated track is the replay: all rows, no range, enough points. */
  lemma UndecimatedTrackIsReplay(rows: FixTable, maxPoints: nat)
    requires AllU32(rows.Keys) && MAX_POINTS_MIN <= maxPoints && |rows| <= maxPoints
    ensures StoredPoints(TrackRows(rows, None, None, maxPoints).data) == Replay(rows)
    ensures TrackRows(rows, None, None, maxPoints).stride == 1 && TrackRows(rows, None, None, maxPoints).total == |rows|
  {
    WithinAll(Normalized(rows));
    DecimationFits(Within(Normalized(rows), None, None), maxPoints);
  }

  lemma {:induction false} WithinAll(rows: seq<Row>)
    ensures Within(rows, None, None) == rows
  {
    if rows != [] {
      WithinAll(rows[..|rows| - 1]);
    }
  }
}
