/** From the hub through the store and back: what a viewer saw live is what the replay of the session shows. */
module LiveReplay {
  import opened Prelude
  import opened Packets
  import opened LiveTypes
  import opened LiveSessions
  import opened TelemetryTables
  import opened TelemetryFacts
  import opened Columns
  import opened Queries
  import opened RangeQueries
  import opened Agreement
  import HubStates
  import HubTheorems

  /** Everything received is written: accepted cycle `i` to session `sessionId` as write `at[i]`, among whatever else. */
  ghost predicate WritesReceived(ws: seq<Write>, a: seq<LiveCycle>, at: seq<nat>, sessionId: int) {
    && |at| == |a|
    && forall i :: 0 <= i < |a| ==> at[i] < |ws| && ws[at[i]].sessionId == sessionId && ws[at[i]].cycle == a[i].record
  }

  /** Write `k` is an accepted cycle, or has the number of one that was written before it. */
  ghost predicate Repeats(ws: seq<Write>, a: seq<LiveCycle>, at: seq<nat>, k: nat)
    requires |at| == |a| && k < |ws|
  {
    exists i :: 0 <= i < |a| && at[i] <= k && a[i].record.seqNo == ws[k].cycle.seqNo
  }

  /** What the hub refused, for being late or stale, only repeats numbers accepted before. */
  ghost predicate RestRepeats(ws: seq<Write>, a: seq<LiveCycle>, at: seq<nat>, sessionId: int) {
    |at| == |a| && forall k: nat :: k < |ws| && ws[k].sessionId == sessionId ==> Repeats(ws, a, at, k)
  }

  ghost predicate NothingOf(d: CycleTables, sessionId: int) {
    && (forall k :: k in d.fixes ==> k.0 != sessionId)
    && (forall k :: k in d.ranges ==> k.0 != sessionId)
  }

  /** On the same side, no two cycles share a stored number. */
  lemma RawsDiffer(a: seq<LiveCycle>, i: nat, j: nat)
    requires Chain(a) && OffTheWire(a) && SameSide(a) && i < j < |a|
    ensures a[i].record.seqNo != a[j].record.seqNo
  {
    hide SameSide, SeqWrapped, Chain;
    SameNumbersIffSameSide(a);
    ChainIncreases(a, i, j);
  }

  lemma {:induction false} DistinctRawsCount(a: seq<LiveCycle>)
    requires forall i, j :: 0 <= i < j < |a| ==> a[i].record.seqNo != a[j].record.seqNo
    ensures |RawSeqs(a)| == |a|
  {
    if a != [] {
      var front, last := a[..|a| - 1], a[|a| - 1].record.seqNo;
      DistinctRawsCount(front);
      assert RawSeqs(a) == RawSeqs(front) + {last} by {
        assert forall i :: 0 <= i < |front| ==> front[i] == a[i];
        forall x | x in RawSeqs(a) ensures x in RawSeqs(front) + {last} {
          var i :| 0 <= i < |a| && a[i].record.seqNo == x;
          assert i < |front| ==> front[i].record.seqNo in RawSeqs(front);
        }
      }
    } else {
      assert RawSeqs(a) == {};
    }
  }

  /** Each accepted cycle's own row is what the store then holds for its number. */
  lemma StoredRow(d: CycleTables, ws: seq<Write>, a: seq<LiveCycle>, at: seq<nat>, sessionId: int, i: nat)
    requires Chain(a) && OffTheWire(a) && SameSide(a) && RangesHaveFixes(d)
    requires WritesReceived(ws, a, at, sessionId) && RestRepeats(ws, a, at, sessionId) && NothingOf(d, sessionId)
    requires i < |a|
    ensures var key, r := (sessionId, a[i].record.seqNo), InsertAll(d, ws);
      && key in r.fixes && r.fixes[key] == FixRowOf(a[i].record, ws[at[i]].recvAt)
      && forall anchor ::
           var j := FirstOf(a[i].record.ranges, anchor);
           && ((key.0, key.1, anchor) in r.ranges <==> j < |a[i].record.ranges|)
           && ((key.0, key.1, anchor) in r.ranges ==>
                 r.ranges[(key.0, key.1, anchor)] == RangeRowOf(a[i].record, a[i].record.ranges[j]))
  {
    var key := (sessionId, a[i].record.seqNo);
    OwnWriteIsFirst(ws, a, at, sessionId, i);
    hide Chain, SameSide, FixRowOf, RangeRowOf, InsertAll, RestRepeats, OffTheWire;
    FirstWriteUnique(ws, key, at[i]);
    FirstWriteWins(d, ws, key);
  }

  lemma OwnWriteIsFirst(ws: seq<Write>, a: seq<LiveCycle>, at: seq<nat>, sessionId: int, i: nat)
    requires Chain(a) && OffTheWire(a) && SameSide(a) && i < |a|
    requires WritesReceived(ws, a, at, sessionId) && RestRepeats(ws, a, at, sessionId)
    ensures forall k :: 0 <= k < at[i] ==> ws[k].FixKey() != (sessionId, a[i].record.seqNo)
  {
    hide Chain, SameSide, OffTheWire, Repeats;
    forall k: nat | k < at[i] ensures ws[k].FixKey() != (sessionId, a[i].record.seqNo) {
      if ws[k].FixKey() == (sessionId, a[i].record.seqNo) {
        RepeatsNoLaterOne(ws, a, at, k, i);
      }
    }
  }

  lemma RepeatsNoLaterOne(ws: seq<Write>, a: seq<LiveCycle>, at: seq<nat>, k: nat, i: nat)
    requires Chain(a) && OffTheWire(a) && SameSide(a) && |at| == |a| && k < |ws| && i < |a|
    requires Repeats(ws, a, at, k) && ws[k].cycle.seqNo == a[i].record.seqNo
    ensures at[i] <= k
  {
    hide Chain, SameSide, OffTheWire;
    var j :| 0 <= j < |a| && at[j] <= k && a[j].record.seqNo == ws[k].cycle.seqNo;
    if j < i {
      RawsDiffer(a, j, i);
    } else if i < j {
      RawsDiffer(a, i, j);
    }
  }

  /** Writing all that was received stores one row for each accepted cycle, its own, and nothing else. */
  lemma StoringAccepted(d: CycleTables, ws: seq<Write>, a: seq<LiveCycle>, at: seq<nat>, sessionId: int)
    requires Chain(a) && OffTheWire(a) && SameSide(a) && RangesHaveFixes(d)
    requires WritesReceived(ws, a, at, sessionId) && RestRepeats(ws, a, at, sessionId) && NothingOf(d, sessionId)
    ensures StoredExactly(SessionFixes(InsertAll(d, ws), sessionId), a)
  {
    hide Chain, SameSide, FixRowOf, RangeRowOf, InsertAll;
    var rows := SessionFixes(InsertAll(d, ws), sessionId);
    forall i | 0 <= i < |a| ensures a[i].record.seqNo in rows && StoredAs(rows[a[i].record.seqNo], a[i].record) {
      StoredRow(d, ws, a, at, sessionId, i);
    }
    forall k | k in rows ensures k in RawSeqs(a) {
      var w := FirstWrite(ws, (sessionId, k));
      FirstWriteWins(d, ws, (sessionId, k));
      assert Repeats(ws, a, at, w);
    }
    assert rows.Keys == RawSeqs(a);
    AcceptedNumbers(a);
    assert |rows| == |rows.Keys|;
  }

  /** On the same side, there are as many numbers as cycles. */
  lemma AcceptedNumbers(a: seq<LiveCycle>)
    requires Chain(a) && OffTheWire(a) && SameSide(a)
    ensures |RawSeqs(a)| == |a|
  {
    hide Chain, SameSide, RawSeqs;
    forall i, j | 0 <= i < j < |a| ensures a[i].record.seqNo != a[j].record.seqNo {
      RawsDiffer(a, i, j);
    }
    DistinctRawsCount(a);
  }

  /**
    For every run of the hub and every session a tag has had: store all that was received for it, read it back
    undecimated, and every column of every cycle is the one that was shown live.
   */
  lemma ReplayShowsWhatWasLive(cfg: HubStates.Config, events: seq<HubStates.Event>, tagId: int, k: nat,
                               d: CycleTables, ws: seq<Write>, at: seq<nat>, sessionId: int, maxPoints: nat)
    requires k < |HubTheorems.Histories(HubStates.Run(cfg, events), tagId)|
    requires var a := HubTheorems.Histories(HubStates.Run(cfg, events), tagId)[k].session.accepted;
      && OffTheWire(a) && SameSide(a) && WritesReceived(ws, a, at, sessionId) && RestRepeats(ws, a, at, sessionId)
      && MAX_POINTS_MIN <= maxPoints && |a| <= maxPoints
    requires RangesHaveFixes(d) && NothingOf(d, sessionId)
    ensures var a := HubTheorems.Histories(HubStates.Run(cfg, events), tagId)[k].session.accepted;
      var rows := SessionFixes(InsertAll(d, ws), sessionId);
      && AllU32(rows.Keys)
      && StoredPoints(TrackRows(rows, None, None, maxPoints).data) == LivePoints(a)
      && TrackRows(rows, None, None, maxPoints).stride == 1
  {
    hide SameSide, TrackRows, InsertAll, HubStates.Run, HubTheorems.Histories, WritesReceived, RestRepeats;
    var s := HubTheorems.Histories(HubStates.Run(cfg, events), tagId)[k].session;
    HubTheorems.AppendsAreTheSentStretches(cfg, events, tagId, k);
    SoundChain(s);
    hide Chain, Sound;
    StoringAccepted(d, ws, s.accepted, at, sessionId);
    var rows := SessionFixes(InsertAll(d, ws), sessionId);
    LiveAndReplayAgree(rows, s.accepted);
    UndecimatedTrackIsReplay(rows, maxPoints);
  }

  /** A number that was received but never accepted: the replay shows more cycles than were shown live. */
  lemma RefusedNumberShowsInReplay(d: CycleTables, ws: seq<Write>, a: seq<LiveCycle>, at: seq<nat>, sessionId: int, k: nat)
    requires Chain(a) && OffTheWire(a) && SameSide(a) && RangesHaveFixes(d)
    requires WritesReceived(ws, a, at, sessionId) && NothingOf(d, sessionId)
    requires forall w :: w in ws ==> IsU32(w.cycle.seqNo)
    requires k < |ws| && ws[k].sessionId == sessionId && ws[k].cycle.seqNo !in RawSeqs(a)
    ensures var rows := SessionFixes(InsertAll(d, ws), sessionId);
      AllU32(rows.Keys) && |Replay(rows)| > |LivePoints(a)|
  {
    hide Chain, SameSide, FixRowOf, InsertAll;
    var rows := SessionFixes(InsertAll(d, ws), sessionId);
    forall x | x in rows ensures IsU32(x) {
      FirstWriteWins(d, ws, (sessionId, x));
      assert ws[FirstWrite(ws, (sessionId, x))] in ws;
    }
    forall x | x in RawSeqs(a) + {ws[k].cycle.seqNo} ensures x in rows {
      var w: nat := k;
      if x in RawSeqs(a) {
        w := WriteOf(ws, a, at, sessionId, x);
      }
      FirstWriteWins(d, ws, (sessionId, x));
      assert ws[w].FixKey() == (sessionId, x);
    }
    AcceptedNumbers(a);
    Smaller(RawSeqs(a) + {ws[k].cycle.seqNo}, rows.Keys);
    assert |rows| == |rows.Keys|;
  }

  lemma WriteOf(ws: seq<Write>, a: seq<LiveCycle>, at: seq<nat>, sessionId: int, x: int) returns (w: nat)
    requires WritesReceived(ws, a, at, sessionId) && x in RawSeqs(a)
    ensures w < |ws| && ws[w].FixKey() == (sessionId, x)
  {
    var i :| 0 <= i < |a| && a[i].record.seqNo == x;
    w := at[i];
  }

  lemma Smaller(p: set<int>, q: set<int>)
    requires p <= q
    ensures |p| <= |q|
  {
    assert q == p + (q - p);
  }

  lemma SoundChain(s: Session)
    requires Sound(s)
    ensures Chain(s.accepted)
  {}

  // ---------------------------------------------------------------- ranges

  ghost predicate AnchorsDiffer(rs: seq<RangeRecord>) {
    forall i, j :: 0 <= i < j < |rs| ==> rs[i].anchorId != rs[j].anchorId
  }

  function LiveRangePoint(tMs: int, seqN: int, r: RangeRecord): RangePoint {
    RangePointOf(tMs, seqN, r.status, Some(r.distanceMm), r.elapsedMs, r.kf)
  }

  /** A cycle without repeated anchors adds at most one point to each. */
  lemma {:induction false} OnePointPerAnchor(table: RangeTable, tMs: int, seqN: int, rs: seq<RangeRecord>, anchor: int)
    requires AnchorsDiffer(rs)
    ensures var j := FirstOf(rs, anchor);
      RangesFor(AddRanges(table, tMs, seqN, rs), anchor)
        == RangesFor(table, anchor) + if j < |rs| then [LiveRangePoint(tMs, seqN, rs[j])] else []
  {
    if rs != [] {
      var front, last := rs[..|rs| - 1], rs[|rs| - 1];
      OnePointPerAnchor(table, tMs, seqN, front, anchor);
      assert rs == front + [last];
      FirstOfSnoc(front, last, anchor);
    }
  }

  /** Ranges too: what the store joins to the session's rows is what the live table shows. */
  lemma RangesAgree(d: CycleTables, ws: seq<Write>, a: seq<LiveCycle>, at: seq<nat>, sessionId: int, anchor: int)
    requires Chain(a) && OffTheWire(a) && SameSide(a) && RangesHaveFixes(d)
    requires WritesReceived(ws, a, at, sessionId) && RestRepeats(ws, a, at, sessionId) && NothingOf(d, sessionId)
    requires forall i :: 0 <= i < |a| ==> AnchorsDiffer(a[i].record.ranges)
    ensures var r := InsertAll(d, ws);
      var rows := SessionFixes(r, sessionId);
      AllU32(rows.Keys) && StoredRanges(r, sessionId, Normalized(rows), anchor) == RangesFor(LiveRanges(a), anchor)
  {
    hide WritesReceived, RestRepeats, StoredExactly, Chain, SameSide, InsertAll, Normalized, Replay, LivePoints;
    StoringAccepted(d, ws, a, at, sessionId);
    var rows := SessionFixes(InsertAll(d, ws), sessionId);
    LiveAndReplayAgree(rows, a);
    RangesAgreeUpTo(d, ws, a, at, sessionId, anchor, |a|);
    assert a[..|a|] == a && Normalized(rows)[..|a|] == Normalized(rows);
  }

  lemma {:induction false} RangesAgreeUpTo(d: CycleTables, ws: seq<Write>, a: seq<LiveCycle>, at: seq<nat>,
                                           sessionId: int, anchor: int, n: nat)
    requires Chain(a) && OffTheWire(a) && SameSide(a) && RangesHaveFixes(d)
    requires WritesReceived(ws, a, at, sessionId) && RestRepeats(ws, a, at, sessionId) && NothingOf(d, sessionId)
    requires n <= |a|
    requires forall i :: 0 <= i < |a| ==> AnchorsDiffer(a[i].record.ranges)
    requires StoredExactly(SessionFixes(InsertAll(d, ws), sessionId), a)
    requires AllU32(SessionFixes(InsertAll(d, ws), sessionId).Keys)
    ensures |Normalized(SessionFixes(InsertAll(d, ws), sessionId))| == |a|
    ensures var r := InsertAll(d, ws);
      StoredRanges(r, sessionId, Normalized(SessionFixes(r, sessionId))[..n], anchor) == RangesFor(LiveRanges(a[..n]), anchor)
    decreases n
  {
    hide WritesReceived, RestRepeats, StoredExactly, AllU32, OffTheWire, Chain, SameSide, InsertAll, Normalized, OnlyIf,
      FixRowOf, StoredPoint, LivePoint, SessionFixes;
    RowCount(SessionFixes(InsertAll(d, ws), sessionId), a);
    if n > 0 {
      var r := InsertAll(d, ws);
      var rows := Normalized(SessionFixes(r, sessionId));
      var i := n - 1;
      RangesAgreeUpTo(d, ws, a, at, sessionId, anchor, i);
      RowIsCycle(SessionFixes(r, sessionId), a, i);
      RowNumber(SessionFixes(r, sessionId), a, i);
      StoredRow(d, ws, a, at, sessionId, i);
      assert rows[..n][..i] == rows[..i] && a[..n][..i] == a[..i];
      var c := a[i];
      OnePointPerAnchor(LiveRanges(a[..i]), c.tMs, c.seqN, c.record.ranges, anchor);
      var j := FirstOf(c.record.ranges, anchor);
      if j < |c.record.ranges| {
        SameRangePoint(c.record, c.record.ranges[j], c.tMs, c.seqN);
      }
    }
  }

  lemma RowCount(rows: FixTable, a: seq<LiveCycle>)
    requires StoredExactly(rows, a) && AllU32(rows.Keys)
    ensures |Normalized(rows)| == |a|
  {}

  lemma RowNumber(rows: FixTable, a: seq<LiveCycle>, i: nat)
    requires Chain(a) && OffTheWire(a) && StoredExactly(rows, a) && SameSide(a) && AllU32(rows.Keys) && i < |a|
    ensures |Normalized(rows)| == |a| && Normalized(rows)[i].seqNo == a[i].record.seqNo
  {
    hide SameSide, SeqWrapped, InOrder, TimeN, SeqN, Chain, FixRowOf;
    ReplayOrderIsLiveOrder(rows, a);
  }

  lemma SameRangePoint(c: CycleRecord, r: RangeRecord, tMs: int, seqN: int)
    ensures var row := RangeRowOf(c, r);
      RangePointOf(tMs, seqN, row.status, row.distanceMm, row.elapsedMs, row.kf) == LiveRangePoint(tMs, seqN, r)
  {}
}
