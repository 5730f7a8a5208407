/** The session, fix and range tables, and what writing packets does to them (store/telemetry.py). */
module TelemetryTables {
  import opened Prelude
  import opened Packets

  /** Receive times are points on the server's clock; only their order matters. */
  datatype SessionRow = SessionRow(id: int, configRev: Option<int>, fwVersion: Option<string>, startedAt: int, lastSeenAt: int)

  datatype Method = Trilat2d | Trilat3d

  datatype FixRow = FixRow(
    tTagMs: int, recvAt: int, ok: bool, xMm: Option<int>, yMm: Option<int>, zMm: Option<int>,
    usedCount: int, residualMm: int, method_: Option<Method>,
    kfOk: bool, kfUpdated: bool, kfInit: bool,
    kfXMm: Option<int>, kfYMm: Option<int>, kfZMm: Option<int>, kfSigmaMm: Option<int>, kfUsed: int, kfRejected: int)

  datatype RangeRow = RangeRow(tTagMs: int, status: int, distanceMm: Option<int>, elapsedMs: int, kf: int)

  /** The session table and its AUTOINCREMENT counter. */
  datatype SessionTable = SessionTable(rows: map<Key, SessionRow>, nextId: int)

  /** Fixes by (session, seq), ranges by (session, seq, anchor). */
  datatype CycleTables = CycleTables(fixes: map<(int, int), FixRow>, ranges: map<(int, int, int), RangeRow>)

  datatype Received = Received(packet: TelemetryPacket, recvAt: int) {
    function Key(): Key {
      KeyOf(packet)
    }
  }

  function Min(a: int, b: int): int { if a <= b then a else b }
  function Max(a: int, b: int): int { if a >= b then a else b }

  function Keep<T>(condition: bool, value: T): Option<T> {
    if condition then Some(value) else None
  }

  /** A failed fix has no position and no method, an invalid filter no position, deviation or flags. */
  function FixRowOf(c: CycleRecord, recvAt: int): FixRow {
    var ok, kf := c.FixOk(), c.KfOk();
    FixRow(c.tTagMs, recvAt, ok, Keep(ok, c.xMm), Keep(ok, c.yMm), Keep(ok, c.zMm), c.usedCount, c.residualMm,
           Keep(ok, if c.Fix3d() then Trilat3d else Trilat2d),
           kf, kf && c.KfUpdated(), kf && c.KfInit(),
           Keep(kf, c.kfXMm), Keep(kf, c.kfYMm), Keep(kf, c.kfZMm), Keep(kf, c.kfSigmaMm), c.kfUsed, c.kfRejected)
  }

  function RangeRowOf(c: CycleRecord, r: RangeRecord): RangeRow {
    RangeRow(c.tTagMs, r.status, Keep(r.Ok(), r.distanceMm), r.elapsedMs, r.kf)
  }

  // ---------------------------------------------------------------- sessions

  /** `_touch_session`: widens the session's span, or gives it the next id. */
  function Touch(s: SessionTable, key: Key, first: int, last: int): (r: SessionTable)
    ensures key in r.rows
  {
    if key in s.rows then
      var row := s.rows[key];
      s.(rows := s.rows[key := row.(startedAt := Min(row.startedAt, first), lastSeenAt := Max(row.lastSeenAt, last))])
    else
      SessionTable(s.rows[key := SessionRow(s.nextId, None, None, first, last)], s.nextId + 1)
  }

  function OrElse<T>(a: Option<T>, b: Option<T>): Option<T> {
    if a.Some? then a else b
  }

  /** `hello`: fills in what the tag reports, without erasing anything. */
  function Hello(s: SessionTable, key: Key, fwVersion: Option<string>, configRev: Option<int>, now: int): (r: SessionTable)
    ensures key in r.rows
  {
    if key in s.rows then
      var row := s.rows[key];
      s.(rows := s.rows[key := row.(configRev := OrElse(configRev, row.configRev),
                                    fwVersion := OrElse(fwVersion, row.fwVersion),
                                    lastSeenAt := Max(row.lastSeenAt, now))])
    else
      SessionTable(s.rows[key := SessionRow(s.nextId, configRev, fwVersion, now, now)], s.nextId + 1)
  }

  /** One entry of `seen`: a session of the batch and the span of its receive times. */
  datatype Span = Span(key: Key, first: int, last: int)

  function SpanIndex(seen: seq<Span>, key: Key): (i: nat)
    ensures i <= |seen|
    ensures i < |seen| ==> seen[i].key == key
    ensures forall k :: 0 <= k < i ==> seen[k].key != key
  {
    if seen == [] || seen[0].key == key then 0
    else
      var i := SpanIndex(seen[1..], key);
      assert forall k :: 0 < k < i + 1 ==> seen[k] == seen[1..][k - 1];
      i + 1
  }

  function Note(seen: seq<Span>, key: Key, at: int): seq<Span> {
    var i := SpanIndex(seen, key);
    if i == |seen| then seen + [Span(key, at, at)]
    else seen[i := Span(key, Min(seen[i].first, at), Max(seen[i].last, at))]
  }

  /** The sessions of a batch in order of first appearance. */
  function Seen(items: seq<Received>): seq<Span> {
    if items == [] then []
    else Note(Seen(items[..|items| - 1]), items[|items| - 1].Key(), items[|items| - 1].recvAt)
  }

  function TouchSpans(s: SessionTable, seen: seq<Span>): SessionTable {
    if seen == [] then s
    else
      var last := seen[|seen| - 1];
      Touch(TouchSpans(s, seen[..|seen| - 1]), last.key, last.first, last.last)
  }

  /** Touching packet by packet instead of session by session. */
  function TouchEach(s: SessionTable, items: seq<Received>): (r: SessionTable)
    ensures forall i :: 0 <= i < |items| ==> items[i].Key() in r.rows
  {
    if items == [] then s
    else
      var last := items[|items| - 1];
      var front := TouchEach(s, items[..|items| - 1]);
      assert forall i :: 0 <= i < |items| - 1 ==> items[..|items| - 1][i] == items[i];
      Touch(front, last.Key(), last.recvAt, last.recvAt)
  }

  // ---------------------------------------------------------------- cycles

  /** A cycle on its way into the tables. */
  datatype Write = Write(sessionId: int, cycle: CycleRecord, recvAt: int) {
    function FixKey(): (int, int) {
      (sessionId, cycle.seqNo)
    }
  }

  function InsertRange(ranges: map<(int, int, int), RangeRow>, key: (int, int, int), row: RangeRow): map<(int, int, int), RangeRow> {
    if key in ranges then ranges else ranges[key := row]
  }

  function InsertRanges(ranges: map<(int, int, int), RangeRow>, w: Write, rs: seq<RangeRecord>): map<(int, int, int), RangeRow> {
    if rs == [] then ranges
    else
      var r := rs[|rs| - 1];
      InsertRange(InsertRanges(ranges, w, rs[..|rs| - 1]), (w.sessionId, w.cycle.seqNo, r.anchorId), RangeRowOf(w.cycle, r))
  }

  /** `_insert_cycle`: an already stored (session, seq) keeps its fix and its ranges. */
  function Insert(d: CycleTables, w: Write): CycleTables {
    if w.FixKey() in d.fixes then d
    else CycleTables(d.fixes[w.FixKey() := FixRowOf(w.cycle, w.recvAt)], InsertRanges(d.ranges, w, w.cycle.ranges))
  }

  function InsertAll(d: CycleTables, ws: seq<Write>): CycleTables {
    if ws == [] then d else Insert(InsertAll(d, ws[..|ws| - 1]), ws[|ws| - 1])
  }

  function Size(d: CycleTables): int {
    |d.fixes| + |d.ranges|
  }

  function WritesOf(sessionId: int, cycles: seq<CycleRecord>, recvAt: int): seq<Write> {
    seq(|cycles|, i requires 0 <= i < |cycles| => Write(sessionId, cycles[i], recvAt))
  }

  /** Every cycle of a batch in the order it is written. */
  function AllWrites(s: SessionTable, items: seq<Received>): seq<Write>
    requires forall i :: 0 <= i < |items| ==> items[i].Key() in s.rows
  {
    if items == [] then []
    else
      var front, last := items[..|items| - 1], items[|items| - 1];
      assert forall i :: 0 <= i < |front| ==> front[i] == items[i];
      AllWrites(s, front) + WritesOf(s.rows[last.Key()].id, last.packet.cycles, last.recvAt)
  }

  function Attempted(ws: seq<Write>): nat {
    if ws == [] then 0 else Attempted(ws[..|ws| - 1]) + 1 + |ws[|ws| - 1].cycle.ranges|
  }

  // ---------------------------------------------------------------- one batch

  datatype WriteResult = WriteResult(packets: nat, rows: int, duplicateRows: int, sessions: map<Key, int>)

  datatype Tables = Tables(sessions: SessionTable, cycles: CycleTables)

  lemma {:induction false} SpansCover(s: SessionTable, seen: seq<Span>)
    ensures forall i :: 0 <= i < |seen| ==> seen[i].key in TouchSpans(s, seen).rows
  {
    if seen != [] {
      SpansCover(s, seen[..|seen| - 1]);
      assert forall i :: 0 <= i < |seen| - 1 ==> seen[..|seen| - 1][i] == seen[i];
    }
  }

  lemma {:induction false} SeenCovers(items: seq<Received>)
    ensures forall i :: 0 <= i < |items| ==> exists k :: 0 <= k < |Seen(items)| && Seen(items)[k].key == items[i].Key()
    ensures forall j, k :: 0 <= j < k < |Seen(items)| ==> Seen(items)[j].key != Seen(items)[k].key
  {
    if items != [] {
      var front, last := items[..|items| - 1], items[|items| - 1];
      SeenCovers(front);
      var old_, new_ := Seen(front), Seen(items);
      var at := SpanIndex(old_, last.Key());
      assert new_[at].key == last.Key();
      assert forall k :: 0 <= k < |old_| ==> new_[k].key == old_[k].key;
      forall i | 0 <= i < |items| ensures exists k :: 0 <= k < |new_| && new_[k].key == items[i].Key() {
        if i < |front| {
          assert front[i] == items[i];
          var k :| 0 <= k < |old_| && old_[k].key == front[i].Key();
          assert new_[k].key == items[i].Key();
        }
      }
    }
  }

  /** The session table once a batch has touched its sessions. */
  function Touched(s: SessionTable, items: seq<Received>): (r: SessionTable)
    ensures forall i :: 0 <= i < |items| ==> items[i].Key() in r.rows
  {
    SeenCovers(items);
    SpansCover(s, Seen(items));
    TouchSpans(s, Seen(items))
  }

  /** The specification of `write_packets`. */
  function WritePackets(t: Tables, items: seq<Received>): Tables {
    var s := Touched(t.sessions, items);
    Tables(s, InsertAll(t.cycles, AllWrites(s, items)))
  }

  function ResultOf(t: Tables, items: seq<Received>): WriteResult {
    var r := WritePackets(t, items);
    var rows := Size(r.cycles) - Size(t.cycles);
    WriteResult(|items|, rows, Attempted(AllWrites(r.sessions, items)) - rows,
                map key | key in (set i | 0 <= i < |items| :: items[i].Key()) :: r.sessions.rows[key].id)
  }
}

/** The store as an object over its tables, with the loops of store/telemetry.py. */
module TelemetryStores {
  import opened Prelude
  import opened Packets
  import opened TelemetryTables
  import opened TelemetryFacts

  class TelemetryStore {
    var sessions: map<Key, SessionRow>
    var nextId: int
    var fixes: map<(int, int), FixRow>
    var ranges: map<(int, int, int), RangeRow>

    ghost function State(): Tables
      reads this
    {
      Tables(SessionTable(sessions, nextId), CycleTables(fixes, ranges))
    }

    constructor ()
      ensures State() == Tables(SessionTable(map[], 1), CycleTables(map[], map[]))
    {
      sessions, nextId, fixes, ranges := map[], 1, map[], map[];
    }

    method TouchSession(key: Key, first: int, last: int) returns (id: int)
      modifies this`sessions, this`nextId
      ensures SessionTable(sessions, nextId) == Touch(old(SessionTable(sessions, nextId)), key, first, last)
      ensures id == sessions[key].id
    {
      if key in sessions {
        var row := sessions[key];
        sessions := sessions[key := row.(startedAt := Min(row.startedAt, first), lastSeenAt := Max(row.lastSeenAt, last))];
        return row.id;
      }
      sessions := sessions[key := SessionRow(nextId, None, None, first, last)];
      nextId := nextId + 1;
      return nextId - 1;
    }

    /** Records a hello and returns the id and configuration revision the session then has. */
    method RecordHello(key: Key, fwVersion: Option<string>, configRev: Option<int>, now: int)
      returns (id: int, rev: Option<int>)
      modifies this`sessions, this`nextId
      ensures SessionTable(sessions, nextId) == Hello(old(SessionTable(sessions, nextId)), key, fwVersion, configRev, now)
      ensures id == sessions[key].id && rev == sessions[key].configRev
    {
      if key in sessions {
        var row := sessions[key];
        sessions := sessions[key := row.(configRev := OrElse(configRev, row.configRev),
                                         fwVersion := OrElse(fwVersion, row.fwVersion),
                                         lastSeenAt := Max(row.lastSeenAt, now))];
      } else {
        sessions := sessions[key := SessionRow(nextId, configRev, fwVersion, now, now)];
        nextId := nextId + 1;
      }
      return sessions[key].id, sessions[key].configRev;
    }

    method InsertCycle(sessionId: int, cycle: CycleRecord, recvAt: int) returns (inserted: int)
      modifies this`fixes, this`ranges
      ensures CycleTables(fixes, ranges) == Insert(old(CycleTables(fixes, ranges)), Write(sessionId, cycle, recvAt))
      ensures inserted == |fixes| + |ranges| - old(|fixes| + |ranges|)
    {
      ghost var w := Write(sessionId, cycle, recvAt);
      if (sessionId, cycle.seqNo) in fixes {
        return 0;
      }
      fixes := fixes[(sessionId, cycle.seqNo) := FixRowOf(cycle, recvAt)];
      inserted := 1;
      for i := 0 to |cycle.ranges|
        invariant ranges == InsertRanges(old(ranges), w, cycle.ranges[..i])
        invariant inserted == 1 + |ranges| - old(|ranges|)
        invariant fixes == old(fixes)[w.FixKey() := FixRowOf(cycle, recvAt)]
      {
        assert cycle.ranges[..i + 1][..i] == cycle.ranges[..i];
        var key := (sessionId, cycle.seqNo, cycle.ranges[i].anchorId);
        if key !in ranges {
          ranges := ranges[key := RangeRowOf(cycle, cycle.ranges[i])];
          inserted := inserted + 1;
        }
      }
      assert cycle.ranges[..|cycle.ranges|] == cycle.ranges;
    }

    /** The sessions of a batch with their earliest and latest receive times. */
    method CollectSeen(received: seq<Received>) returns (seen: seq<Span>)
      ensures seen == Seen(received)
    {
      seen := [];
      for i := 0 to |received|
        invariant seen == Seen(received[..i])
      {
        assert received[..i + 1][..i] == received[..i];
        seen := Note(seen, received[i].Key(), received[i].recvAt);
      }
      assert received[..|received|] == received;
    }

    method TouchSessions(seen: seq<Span>) returns (ids: map<Key, int>)
      modifies this`sessions, this`nextId
      ensures SessionTable(sessions, nextId) == TouchSpans(old(SessionTable(sessions, nextId)), seen)
      ensures forall key :: key in ids <==> Noted(seen, key)
      ensures forall key :: key in ids ==> key in sessions && ids[key] == sessions[key].id
    {
      ids := map[];
      for i := 0 to |seen|
        invariant SessionTable(sessions, nextId) == TouchSpans(old(SessionTable(sessions, nextId)), seen[..i])
        invariant forall key :: key in ids <==> Noted(seen[..i], key)
        invariant forall key :: key in ids ==> key in sessions && ids[key] == sessions[key].id
      {
        assert seen[..i + 1] == seen[..i] + [seen[i]] && seen[..i + 1][..i] == seen[..i];
        AllNotedSnoc(seen[..i], seen[i]);
        var id := TouchSession(seen[i].key, seen[i].first, seen[i].last);
        ids := ids[seen[i].key := id];
      }
      assert seen[..|seen|] == seen;
    }

    method InsertPacket(sessionId: int, item: Received) returns (rows: int, attempted: int)
      modifies this`fixes, this`ranges
      ensures var ws := WritesOf(sessionId, item.packet.cycles, item.recvAt);
        && CycleTables(fixes, ranges) == InsertAll(old(CycleTables(fixes, ranges)), ws)
        && attempted == Attempted(ws)
      ensures rows == |fixes| + |ranges| - old(|fixes| + |ranges|)
    {
      var cycles := item.packet.cycles;
      ghost var ws := WritesOf(sessionId, cycles, item.recvAt);
      rows, attempted := 0, 0;
      for i := 0 to |cycles|
        invariant CycleTables(fixes, ranges) == InsertAll(old(CycleTables(fixes, ranges)), ws[..i])
        invariant attempted == Attempted(ws[..i])
        invariant rows == |fixes| + |ranges| - old(|fixes| + |ranges|)
      {
        assert ws[..i + 1][..i] == ws[..i];
        attempted := attempted + 1 + |cycles[i].ranges|;
        var inserted := InsertCycle(sessionId, cycles[i], item.recvAt);
        rows := rows + inserted;
      }
      assert ws[..|cycles|] == ws;
    }

    method InsertPackets(ids: map<Key, int>, received: seq<Received>) returns (rows: int, attempted: int)
      requires forall i :: 0 <= i < |received| ==>
        received[i].Key() in ids && received[i].Key() in sessions && ids[received[i].Key()] == sessions[received[i].Key()].id
      modifies this`fixes, this`ranges
      ensures KnowsAll(SessionTable(sessions, nextId), received)
      ensures var ws := AllWrites(SessionTable(sessions, nextId), received);
        && CycleTables(fixes, ranges) == InsertAll(old(CycleTables(fixes, ranges)), ws)
        && attempted == Attempted(ws)
      ensures rows == |fixes| + |ranges| - old(|fixes| + |ranges|)
    {
      ghost var s, d := SessionTable(sessions, nextId), CycleTables(fixes, ranges);
      rows, attempted := 0, 0;
      for i := 0 to |received|
        invariant KnowsAll(s, received[..i])
        invariant CycleTables(fixes, ranges) == InsertAll(d, AllWrites(s, received[..i]))
        invariant attempted == Attempted(AllWrites(s, received[..i]))
        invariant rows == |fixes| + |ranges| - TelemetryTables.Size(d)
      {
        var item := received[i];
        assert received[..i + 1][..i] == received[..i];
        var packetRows, packetAttempted := InsertPacket(ids[item.Key()], item);
        ghost var ws := WritesOf(ids[item.Key()], item.packet.cycles, item.recvAt);
        InsertAllConcat(d, AllWrites(s, received[..i]), ws);
        AttemptedConcat(AllWrites(s, received[..i]), ws);
        rows := rows + packetRows;
        attempted := attempted + packetAttempted;
      }
      assert received[..|received|] == received;
    }

    /** Writes a batch in one transaction. */
    method WriteBatch(received: seq<Received>) returns (result: WriteResult)
      modifies this
      ensures State() == WritePackets(old(State()), received)
      ensures result == ResultOf(old(State()), received)
    {
      hide InsertAll, AllWrites, TouchSpans, Seen, Attempted, WritePackets, ResultOf, Touched, Holds, Noted;
      ghost var start := State();
      var seen := CollectSeen(received);
      var ids := TouchSessions(seen);
      SeenKeys(received);
      TouchedIs(start.sessions, received);
      var rows, attempted := InsertPackets(ids, received);
      result := WriteResult(|received|, rows, attempted - rows, ids);
      BatchIs(start, State(), received, result);
    }
  }

  ghost predicate Noted(seen: seq<Span>, key: Key) {
    exists i :: 0 <= i < |seen| && seen[i].key == key
  }

  lemma NotedSnoc(seen: seq<Span>, last: Span, key: Key)
    ensures Noted(seen + [last], key) <==> Noted(seen, key) || last.key == key
  {
    if Noted(seen, key) {
      var i :| 0 <= i < |seen| && seen[i].key == key;
      assert (seen + [last])[i].key == key;
    }
    assert (seen + [last])[|seen|] == last;
  }

  lemma AllNotedSnoc(seen: seq<Span>, last: Span)
    ensures forall key :: Noted(seen + [last], key) <==> Noted(seen, key) || last.key == key
  {
    forall key ensures Noted(seen + [last], key) <==> Noted(seen, key) || last.key == key {
      NotedSnoc(seen, last, key);
    }
  }

  lemma SeenKeys(received: seq<Received>)
    ensures forall key :: Noted(Seen(received), key) <==> Holds(received, key)
    ensures forall i :: 0 <= i < |received| ==> Holds(received, received[i].Key())
  {
    hide Seen;
    forall key ensures Noted(Seen(received), key) <==> Holds(received, key) {
      SeenKey(received, key);
    }
    forall i | 0 <= i < |received| ensures Holds(received, received[i].Key()) {
      assert received[i].Key() == received[i].Key();
    }
  }

  lemma SeenKey(received: seq<Received>, key: Key)
    ensures Noted(Seen(received), key) <==> Holds(received, key)
  {
    SeenCovers(received);
    SeenOnlyReceived(received);
    hide Seen;
    var seen := Seen(received);
    if Holds(received, key) {
      var i :| 0 <= i < |received| && received[i].Key() == key;
      var k :| 0 <= k < |seen| && seen[k].key == received[i].Key();
      assert seen[k].key == key;
    }
    if Noted(seen, key) {
      var k :| 0 <= k < |seen| && seen[k].key == key;
      assert Holds(received, seen[k].key);
    }
  }

  lemma TouchedIs(s: SessionTable, received: seq<Received>)
    ensures Touched(s, received) == TouchSpans(s, Seen(received))
  {}

  /** The loops have done what the specification says. */
  lemma BatchIs(start: Tables, end: Tables, received: seq<Received>, result: WriteResult)
    requires end.sessions == Touched(start.sessions, received)
    requires end.cycles == InsertAll(start.cycles, AllWrites(end.sessions, received))
    requires result.packets == |received| && result.rows == Size(end.cycles) - Size(start.cycles)
    requires result.duplicateRows == Attempted(AllWrites(end.sessions, received)) - result.rows
    requires forall key :: key in result.sessions <==> Holds(received, key)
    requires forall key :: key in result.sessions ==> key in end.sessions.rows && result.sessions[key] == end.sessions.rows[key].id
    ensures end == WritePackets(start, received) && result == ResultOf(start, received)
  {
    hide InsertAll, AllWrites, Touched, Attempted;
    var expected := ResultOf(start, received);
    forall key ensures key in result.sessions <==> key in expected.sessions {
      assert Holds(received, key) <==> key in set i | 0 <= i < |received| :: received[i].Key();
    }
    assert result.sessions == expected.sessions;
  }

  ghost predicate Holds(items: seq<Received>, key: Key) {
    exists i :: 0 <= i < |items| && items[i].Key() == key
  }

  lemma {:induction false} SeenOnlyReceived(items: seq<Received>)
    ensures forall k :: 0 <= k < |Seen(items)| ==> Holds(items, Seen(items)[k].key)
  {
    if items != [] {
      var front, last := items[..|items| - 1], items[|items| - 1];
      SeenOnlyReceived(front);
      var seen, all := Seen(front), Seen(items);
      var at := SpanIndex(seen, last.Key());
      assert all == Note(seen, last.Key(), last.recvAt);
      forall k | 0 <= k < |all| ensures Holds(items, all[k].key) {
        if k == at {
          assert items[|front|].Key() == all[k].key;
        } else {
          assert all[k] == seen[k] && Holds(front, seen[k].key);
          var i :| 0 <= i < |front| && front[i].Key() == seen[k].key;
          assert items[i].Key() == all[k].key;
        }
      }
    }
  }
}
