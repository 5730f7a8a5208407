/** Batching is invisible, the first write wins, ranges belong to fixes, and rows are counted. */
module TelemetryFacts {
  import opened Prelude
  import opened Packets
  import opened TelemetryTables

  // ---------------------------------------------------------------- sessions: per batch or per packet

  /** Two touches of different sessions commute once the first one exists. */
  lemma TouchCommutes(s: SessionTable, a: Key, at: int, b: Key, first: int, last: int)
    requires a != b && a in s.rows
    ensures Touch(Touch(s, b, first, last), a, at, at) == Touch(Touch(s, a, at, at), b, first, last)
  {
    var l := Touch(Touch(s, b, first, last), a, at, at);
    var r := Touch(Touch(s, a, at, at), b, first, last);
    assert l.rows == r.rows;
  }

  /** Touching a session for a later packet is the same as widening its span beforehand. */
  lemma {:induction false} WideningIsTouching(s: SessionTable, seen: seq<Span>, i: nat, at: int)
    requires i < |seen|
    requires forall j, k :: 0 <= j < k < |seen| ==> seen[j].key != seen[k].key
    ensures TouchSpans(s, seen[i := Span(seen[i].key, Min(seen[i].first, at), Max(seen[i].last, at))])
         == Touch(TouchSpans(s, seen), seen[i].key, at, at)
    decreases |seen|
  {
    var n := |seen| - 1;
    var front, last := seen[..n], seen[n];
    var wide := seen[i := Span(seen[i].key, Min(seen[i].first, at), Max(seen[i].last, at))];
    if i == n {
      assert wide[..n] == front;
      var before := TouchSpans(s, front);
      assert Touch(Touch(before, last.key, last.first, last.last), last.key, at, at).rows
          == Touch(before, last.key, Min(last.first, at), Max(last.last, at)).rows;
    } else {
      assert wide[..n] == front[i := Span(front[i].key, Min(front[i].first, at), Max(front[i].last, at))];
      WideningIsTouching(s, front, i, at);
      SpansCover(s, front);
      TouchCommutes(TouchSpans(s, front), seen[i].key, at, last.key, last.first, last.last);
    }
  }

  /** Touching each session of a batch once, with its span, is touching it for every packet. */
  lemma {:induction false} SpansAreEach(s: SessionTable, items: seq<Received>)
    ensures TouchSpans(s, Seen(items)) == TouchEach(s, items)
  {
    if items != [] {
      var front, last := items[..|items| - 1], items[|items| - 1];
      SpansAreEach(s, front);
      SeenCovers(front);
      var seen := Seen(front);
      var i := SpanIndex(seen, last.Key());
      if i == |seen| {
        assert Seen(items)[..|seen|] == seen;
      } else {
        WideningIsTouching(s, seen, i, last.recvAt);
      }
    }
  }

  lemma {:induction false} TouchEachConcat(s: SessionTable, a: seq<Received>, b: seq<Received>)
    ensures TouchEach(s, a + b) == TouchEach(TouchEach(s, a), b)
  {
    if b == [] {
      assert a + b == a;
    } else {
      assert (a + b)[..|a + b| - 1] == a + b[..|b| - 1];
      TouchEachConcat(s, a, b[..|b| - 1]);
    }
  }

  lemma {:induction false} IdsAreKept(s: SessionTable, items: seq<Received>)
    ensures forall key :: key in s.rows ==> key in TouchEach(s, items).rows && TouchEach(s, items).rows[key].id == s.rows[key].id
  {
    if items != [] {
      IdsAreKept(s, items[..|items| - 1]);
    }
  }

  // ---------------------------------------------------------------- cycles of a concatenation

  lemma {:induction false} InsertAllConcat(d: CycleTables, a: seq<Write>, b: seq<Write>)
    ensures InsertAll(d, a + b) == InsertAll(InsertAll(d, a), b)
  {
    if b == [] {
      assert a + b == a;
    } else {
      assert (a + b)[..|a + b| - 1] == a + b[..|b| - 1];
      InsertAllConcat(d, a, b[..|b| - 1]);
    }
  }

  predicate KnowsAll(s: SessionTable, items: seq<Received>) {
    forall i :: 0 <= i < |items| ==> items[i].Key() in s.rows
  }

  lemma {:induction false} AllWritesConcat(s: SessionTable, a: seq<Received>, b: seq<Received>)
    requires KnowsAll(s, a) && KnowsAll(s, b)
    ensures KnowsAll(s, a + b) && AllWrites(s, a + b) == AllWrites(s, a) + AllWrites(s, b)
  {
    if b == [] {
      assert a + b == a;
    } else {
      assert (a + b)[..|a + b| - 1] == a + b[..|b| - 1];
      AllWritesConcat(s, a, b[..|b| - 1]);
    }
  }

  lemma {:induction false} AllWritesSameIds(s: SessionTable, r: SessionTable, items: seq<Received>)
    requires KnowsAll(s, items) && KnowsAll(r, items)
    requires forall i :: 0 <= i < |items| ==> s.rows[items[i].Key()].id == r.rows[items[i].Key()].id
    ensures AllWrites(s, items) == AllWrites(r, items)
  {
    if items != [] {
      var front := items[..|items| - 1];
      assert forall i :: 0 <= i < |front| ==> front[i] == items[i];
      AllWritesSameIds(s, r, front);
    }
  }

  /** Writing two batches leaves the tables that writing them as one batch leaves, ids and times included. */
  lemma BatchingIsInvisible(t: Tables, a: seq<Received>, b: seq<Received>)
    ensures WritePackets(t, a + b) == WritePackets(WritePackets(t, a), b)
  {
    SpansAreEach(t.sessions, a);
    SpansAreEach(t.sessions, a + b);
    TouchEachConcat(t.sessions, a, b);
    var s1 := Touched(t.sessions, a);
    SpansAreEach(s1, b);
    var s2 := Touched(s1, b);
    IdsAreKept(s1, b);
    assert forall i :: 0 <= i < |a| ==> a[i].Key() in s1.rows;
    AllWritesConcat(s2, a, b);
    AllWritesSameIds(s1, s2, a);
    InsertAllConcat(t.cycles, AllWrites(s1, a), AllWrites(s2, b));
  }

  /** The receive times of a session's packets in a batch. */
  function TimesOf(items: seq<Received>, key: Key): set<int> {
    if items == [] then {}
    else
      var last := items[|items| - 1];
      TimesOf(items[..|items| - 1], key) + if last.Key() == key then {last.recvAt} else {}
  }

  ghost predicate IsLeast(x: int, s: set<int>) {
    x in s && forall y :: y in s ==> x <= y
  }

  ghost predicate IsGreatest(x: int, s: set<int>) {
    x in s && forall y :: y in s ==> y <= x
  }

  /** A session starts at the earliest and was last seen at the latest of what it had and what arrived. */
  lemma {:induction false} TimesSpanTheBatch(s: SessionTable, items: seq<Received>, key: Key)
    ensures var starts := TimesOf(items, key) + if key in s.rows then {s.rows[key].startedAt} else {};
      var lasts := TimesOf(items, key) + if key in s.rows then {s.rows[key].lastSeenAt} else {};
      && (key in Touched(s, items).rows <==> starts != {})
      && (starts != {} ==>
            && IsLeast(Touched(s, items).rows[key].startedAt, starts)
            && IsGreatest(Touched(s, items).rows[key].lastSeenAt, lasts))
  {
    SpansAreEach(s, items);
    TimesSpanEach(s, items, key);
  }

  lemma {:induction false} TimesSpanEach(s: SessionTable, items: seq<Received>, key: Key)
    ensures var starts := TimesOf(items, key) + if key in s.rows then {s.rows[key].startedAt} else {};
      var lasts := TimesOf(items, key) + if key in s.rows then {s.rows[key].lastSeenAt} else {};
      && (key in TouchEach(s, items).rows <==> starts != {})
      && (starts != {} ==>
            && IsLeast(TouchEach(s, items).rows[key].startedAt, starts)
            && IsGreatest(TouchEach(s, items).rows[key].lastSeenAt, lasts))
  {
    if items != [] {
      TimesSpanEach(s, items[..|items| - 1], key);
    }
  }

  // ---------------------------------------------------------------- ids

  /** Ids are below the counter and never shared. */
  ghost predicate IdsOk(s: SessionTable) {
    && (forall k :: k in s.rows ==> s.rows[k].id < s.nextId)
    && (forall j, k :: j in s.rows && k in s.rows && j != k ==> s.rows[j].id != s.rows[k].id)
  }

  lemma TouchIds(s: SessionTable, key: Key, first: int, last: int)
    requires IdsOk(s)
    ensures IdsOk(Touch(s, key, first, last))
    ensures forall k :: k in s.rows ==> Touch(s, key, first, last).rows[k].id == s.rows[k].id
  {}

  lemma HelloIds(s: SessionTable, key: Key, fwVersion: Option<string>, configRev: Option<int>, now: int)
    requires IdsOk(s)
    ensures IdsOk(Hello(s, key, fwVersion, configRev, now))
    ensures forall k :: k in s.rows ==> Hello(s, key, fwVersion, configRev, now).rows[k].id == s.rows[k].id
    ensures configRev.None? && key in s.rows ==> Hello(s, key, fwVersion, configRev, now).rows[key].configRev == s.rows[key].configRev
  {}

  lemma {:induction false} BatchIds(s: SessionTable, items: seq<Received>)
    requires IdsOk(s)
    ensures IdsOk(Touched(s, items))
  {
    SpansAreEach(s, items);
    EachIds(s, items);
  }

  lemma {:induction false} EachIds(s: SessionTable, items: seq<Received>)
    requires IdsOk(s)
    ensures IdsOk(TouchEach(s, items))
  {
    if items != [] {
      EachIds(s, items[..|items| - 1]);
      TouchIds(TouchEach(s, items[..|items| - 1]), items[|items| - 1].Key(), items[|items| - 1].recvAt, items[|items| - 1].recvAt);
    }
  }

  // ---------------------------------------------------------------- what the hellos told

  /** A write to the session table. */
  datatype SessionWrite =
    | Batch(items: seq<Received>)
    | Greeting(key: Key, fwVersion: Option<string>, configRev: Option<int>, now: int)
  {
    predicate TellsRev(k: Key) {
      Greeting? && key == k && configRev.Some?
    }

    predicate TellsVersion(k: Key) {
      Greeting? && key == k && fwVersion.Some?
    }
  }

  function WriteSession(s: SessionTable, w: SessionWrite): SessionTable {
    match w
    case Batch(items) => Touched(s, items)
    case Greeting(key, fwVersion, configRev, now) => Hello(s, key, fwVersion, configRev, now)
  }

  function WriteSessions(s: SessionTable, ws: seq<SessionWrite>): SessionTable {
    if ws == [] then s else WriteSession(WriteSessions(s, ws[..|ws| - 1]), ws[|ws| - 1])
  }

  lemma {:induction false} TouchEachTold(s: SessionTable, items: seq<Received>, key: Key)
    ensures var r := TouchEach(s, items);
      if key in s.rows then
        && key in r.rows && r.rows[key].configRev == s.rows[key].configRev && r.rows[key].fwVersion == s.rows[key].fwVersion
      else key in r.rows ==> r.rows[key].configRev.None? && r.rows[key].fwVersion.None?
  {
    if items != [] {
      TouchEachTold(s, items[..|items| - 1], key);
    }
  }

  /** What one write does to the revision and the version of a session. */
  lemma WriteTold(s: SessionTable, w: SessionWrite, key: Key)
    ensures var r := WriteSession(s, w);
      && (key in s.rows || w.TellsRev(key) || w.TellsVersion(key) ==> key in r.rows)
      && (key in r.rows ==>
            && r.rows[key].configRev == (if w.TellsRev(key) then w.configRev
                                         else if key in s.rows then s.rows[key].configRev else None)
            && r.rows[key].fwVersion == (if w.TellsVersion(key) then w.fwVersion
                                         else if key in s.rows then s.rows[key].fwVersion else None))
  {
    if w.Batch? {
      SpansAreEach(s, w.items);
      TouchEachTold(s, w.items, key);
    }
  }

  /**
   * After any writes a session has the revision and the version that its last hello to mention one told, and what it
   * had before, or nothing, when none did.
   */
  lemma {:induction false} LastMentionStays(s: SessionTable, ws: seq<SessionWrite>, key: Key)
    ensures var r := WriteSessions(s, ws);
      && (forall i :: 0 <= i < |ws| && (ws[i].TellsRev(key) || ws[i].TellsVersion(key)) ==> key in r.rows)
      && (key in s.rows ==> key in r.rows)
    ensures var r := WriteSessions(s, ws);
      key in r.rows ==>
        && (forall i :: 0 <= i < |ws| && ws[i].TellsRev(key) && (forall j :: i < j < |ws| ==> !ws[j].TellsRev(key)) ==>
              r.rows[key].configRev == ws[i].configRev)
        && (forall i :: 0 <= i < |ws| && ws[i].TellsVersion(key) && (forall j :: i < j < |ws| ==> !ws[j].TellsVersion(key)) ==>
              r.rows[key].fwVersion == ws[i].fwVersion)
        && ((forall i :: 0 <= i < |ws| ==> !ws[i].TellsRev(key)) ==>
              r.rows[key].configRev == if key in s.rows then s.rows[key].configRev else None)
        && ((forall i :: 0 <= i < |ws| ==> !ws[i].TellsVersion(key)) ==>
              r.rows[key].fwVersion == if key in s.rows then s.rows[key].fwVersion else None)
  {
    hide WriteSession;
    if ws != [] {
      var k := |ws| - 1;
      LastMentionStays(s, ws[..k], key);
      WriteTold(WriteSessions(s, ws[..k]), ws[k], key);
      assert forall i :: 0 <= i < k ==> ws[..k][i] == ws[i];
    }
  }

  // ---------------------------------------------------------------- the first write wins

  /** The first write of a (session, seq), or the length when there is none. */
  function FirstWrite(ws: seq<Write>, key: (int, int)): (i: nat)
    ensures i <= |ws|
    ensures i < |ws| ==> ws[i].FixKey() == key
    ensures forall k :: 0 <= k < i ==> ws[k].FixKey() != key
  {
    if ws == [] || ws[0].FixKey() == key then 0
    else
      var i := FirstWrite(ws[1..], key);
      assert forall k :: 0 < k < i + 1 ==> ws[k] == ws[1..][k - 1];
      i + 1
  }

  function FirstOf(rs: seq<RangeRecord>, anchor: int): (i: nat)
    ensures i <= |rs|
    ensures i < |rs| ==> rs[i].anchorId == anchor
    ensures forall k :: 0 <= k < i ==> rs[k].anchorId != anchor
  {
    if rs == [] || rs[0].anchorId == anchor then 0
    else
      var i := FirstOf(rs[1..], anchor);
      assert forall k :: 0 < k < i + 1 ==> rs[k] == rs[1..][k - 1];
      i + 1
  }

  /** What the ranges of a stored cycle are: one row per anchor, from its first record. */
  lemma {:induction false} RangesOfCycle(ranges: map<(int, int, int), RangeRow>, w: Write, rs: seq<RangeRecord>, k: (int, int, int))
    ensures var r := InsertRanges(ranges, w, rs);
      if k in ranges then k in r && r[k] == ranges[k]
      else if (k.0, k.1) != w.FixKey() then k !in r
      else
        var i := FirstOf(rs, k.2);
        (k in r <==> i < |rs|) && (k in r ==> r[k] == RangeRowOf(w.cycle, rs[i]))
  {
    if rs != [] {
      var front, last := rs[..|rs| - 1], rs[|rs| - 1];
      RangesOfCycle(ranges, w, front, k);
      assert rs == front + [last];
      FirstOfSnoc(front, last, k.2);
    }
  }

  lemma FirstOfSnoc(front: seq<RangeRecord>, last: RangeRecord, anchor: int)
    ensures FirstOf(front + [last], anchor) ==
      var i := FirstOf(front, anchor);
      if i < |front| then i else if last.anchorId == anchor then |front| else |front| + 1
  {
    FirstOfUnique(front + [last], anchor,
      if FirstOf(front, anchor) < |front| then FirstOf(front, anchor)
      else if last.anchorId == anchor then |front| else |front| + 1);
  }

  lemma FirstOfUnique(rs: seq<RangeRecord>, anchor: int, i: nat)
    requires i <= |rs| && (i < |rs| ==> rs[i].anchorId == anchor) && forall k :: 0 <= k < i ==> rs[k].anchorId != anchor
    ensures FirstOf(rs, anchor) == i
  {}

  /** Every stored range belongs to a stored fix. */
  ghost predicate RangesHaveFixes(d: CycleTables) {
    forall k :: k in d.ranges ==> (k.0, k.1) in d.fixes
  }

  lemma {:induction false} InsertAllKeepsFixes(d: CycleTables, ws: seq<Write>)
    requires RangesHaveFixes(d)
    ensures RangesHaveFixes(InsertAll(d, ws))
    ensures forall k :: k in d.fixes ==> k in InsertAll(d, ws).fixes && InsertAll(d, ws).fixes[k] == d.fixes[k]
    ensures forall k :: k in d.ranges ==> k in InsertAll(d, ws).ranges && InsertAll(d, ws).ranges[k] == d.ranges[k]
  {
    if ws != [] {
      var before, w := InsertAll(d, ws[..|ws| - 1]), ws[|ws| - 1];
      InsertAllKeepsFixes(d, ws[..|ws| - 1]);
      forall k: (int, int, int) | k in Insert(before, w).ranges ensures (k.0, k.1) in Insert(before, w).fixes {
        RangesOfCycle(before.ranges, w, w.cycle.ranges, k);
      }
      forall k: (int, int, int) | k in before.ranges ensures k in Insert(before, w).ranges && Insert(before, w).ranges[k] == before.ranges[k] {
        RangesOfCycle(before.ranges, w, w.cycle.ranges, k);
      }
    }
  }

  /** For each (session, seq) the fix is the one stored before, or that of the first write in the batch. */
  lemma {:induction false} FirstWriteWins(d: CycleTables, ws: seq<Write>, key: (int, int))
    requires RangesHaveFixes(d) && key !in d.fixes
    ensures var i, r := FirstWrite(ws, key), InsertAll(d, ws);
      && (key in r.fixes <==> i < |ws|)
      && (i < |ws| ==>
            && r.fixes[key] == FixRowOf(ws[i].cycle, ws[i].recvAt)
            && forall anchor ::
                 var j := FirstOf(ws[i].cycle.ranges, anchor);
                 && ((key.0, key.1, anchor) in r.ranges <==> j < |ws[i].cycle.ranges|)
                 && ((key.0, key.1, anchor) in r.ranges ==>
                       r.ranges[(key.0, key.1, anchor)] == RangeRowOf(ws[i].cycle, ws[i].cycle.ranges[j])))
  {
    if ws != [] {
      var front, w := ws[..|ws| - 1], ws[|ws| - 1];
      var before := InsertAll(d, front);
      FirstWriteWins(d, front, key);
      InsertAllKeepsFixes(d, front);
      assert ws == front + [w];
      FirstWriteSnoc(front, w, key);
      forall anchor: int
        ensures var k := (key.0, key.1, anchor);
          if w.FixKey() == key && key !in before.fixes then
            var j := FirstOf(w.cycle.ranges, anchor);
            && (k in Insert(before, w).ranges <==> j < |w.cycle.ranges|)
            && (k in Insert(before, w).ranges ==> Insert(before, w).ranges[k] == RangeRowOf(w.cycle, w.cycle.ranges[j]))
          else
            && (k in Insert(before, w).ranges <==> k in before.ranges)
            && (k in before.ranges ==> Insert(before, w).ranges[k] == before.ranges[k])
      {
        RangesOfCycle(before.ranges, w, w.cycle.ranges, (key.0, key.1, anchor));
      }
    }
  }

  lemma FirstWriteSnoc(front: seq<Write>, last: Write, key: (int, int))
    ensures FirstWrite(front + [last], key) ==
      var i := FirstWrite(front, key);
      if i < |front| then i else if last.FixKey() == key then |front| else |front| + 1
  {
    FirstWriteUnique(front + [last], key,
      if FirstWrite(front, key) < |front| then FirstWrite(front, key)
      else if last.FixKey() == key then |front| else |front| + 1);
  }

  lemma FirstWriteUnique(ws: seq<Write>, key: (int, int), i: nat)
    requires i <= |ws| && (i < |ws| ==> ws[i].FixKey() == key) && forall k :: 0 <= k < i ==> ws[k].FixKey() != key
    ensures FirstWrite(ws, key) == i
  {}

  // ---------------------------------------------------------------- counting rows

  lemma {:induction false} RangesAdded(ranges: map<(int, int, int), RangeRow>, w: Write, rs: seq<RangeRecord>)
    ensures 0 <= |InsertRanges(ranges, w, rs)| - |ranges| <= |rs|
  {
    if rs != [] {
      RangesAdded(ranges, w, rs[..|rs| - 1]);
    }
  }

  /** A batch never stores more rows than it attempts: duplicates are never negative. */
  lemma {:induction false} RowsWithinAttempts(d: CycleTables, ws: seq<Write>)
    ensures 0 <= Size(InsertAll(d, ws)) - Size(d) <= Attempted(ws)
  {
    if ws != [] {
      RowsWithinAttempts(d, ws[..|ws| - 1]);
      RangesAdded(InsertAll(d, ws[..|ws| - 1]).ranges, ws[|ws| - 1], ws[|ws| - 1].cycle.ranges);
    }
  }

  lemma {:induction false} AttemptedConcat(a: seq<Write>, b: seq<Write>)
    ensures Attempted(a + b) == Attempted(a) + Attempted(b)
  {
    if b == [] {
      assert a + b == a;
    } else {
      assert (a + b)[..|a + b| - 1] == a + b[..|b| - 1];
      AttemptedConcat(a, b[..|b| - 1]);
    }
  }

  /** Rows and duplicates of a batch are those of its parts added up, and together all the rows attempted. */
  lemma CountsAdd(t: Tables, a: seq<Received>, b: seq<Received>)
    ensures var ra, rb, r := ResultOf(t, a), ResultOf(WritePackets(t, a), b), ResultOf(t, a + b);
      && r.rows == ra.rows + rb.rows && r.duplicateRows == ra.duplicateRows + rb.duplicateRows
      && r.duplicateRows >= 0 && r.rows >= 0
  {
    BatchingIsInvisible(t, a, b);
    SpansAreEach(t.sessions, a);
    var s1 := Touched(t.sessions, a);
    var s2 := Touched(s1, b);
    SpansAreEach(s1, b);
    IdsAreKept(s1, b);
    assert forall i :: 0 <= i < |a| ==> a[i].Key() in s1.rows;
    AllWritesConcat(s2, a, b);
    AllWritesSameIds(s1, s2, a);
    AttemptedConcat(AllWrites(s2, a), AllWrites(s2, b));
    RowsWithinAttempts(t.cycles, AllWrites(Touched(t.sessions, a + b), a + b));
  }
}
