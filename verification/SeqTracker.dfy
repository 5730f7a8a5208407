/** The loss tracker of ingest/udp.py as a state and its steps. */
module SeqTrackers {
  import opened Prelude
  import opened Packets
  import opened SeqLedgers

  /** A session that is tracked no longer: forgotten for room, or ended by its tag. */
  datatype Gone = Gone(key: Key, state: SeqState, forgotten: bool)

  /**
   * `SeqTracker`: the sessions in the order of the dictionary, and the totals. `lives` (the arrivals of each tracked
   * session since it was taken up), `last` (which packet was its latest), `steps` and `gone` are history.
   */
  datatype Tracker = Tracker(
    order: seq<Key>, states: map<Key, SeqState>, totalLost: int, totalLate: int, evicted: int,
    lives: map<Key, seq<Arrival>>, last: map<Key, nat>, steps: nat, gone: seq<Gone>)

  datatype Datagram = Datagram(packet: TelemetryPacket, at: int)

  function ArrivalOf(d: Datagram): Arrival {
    Arrival(d.packet.seqNo, |d.packet.cycles|, d.at)
  }

  function Without(order: seq<Key>, key: Key): seq<Key> {
    if order == [] then []
    else if order[|order| - 1] == key then Without(order[..|order| - 1], key)
    else Without(order[..|order| - 1], key) + [order[|order| - 1]]
  }

  /** The dictionary and its insertion order name the same sessions. */
  ghost predicate Listed(t: Tracker) {
    && Distinct(t.order)
    && (forall k :: k in t.order <==> k in t.states)
    && (forall k :: k in t.lives <==> k in t.states)
    && (forall k :: k in t.last <==> k in t.states)
  }

  function Initial(): Tracker {
    Tracker([], map[], 0, 0, 0, map[], map[], 0, [])
  }

  /** A session leaves the dictionary. */
  function Dropped(t: Tracker, key: Key, forgotten: bool): Tracker
    requires key in t.states
  {
    t.(order := Without(t.order, key), states := t.states - {key}, lives := t.lives - {key}, last := t.last - {key},
       evicted := if forgotten then t.evicted + 1 else t.evicted,
       gone := t.gone + [Gone(key, t.states[key], forgotten)])
  }

  /** A session enters at the end. */
  function Added(t: Tracker, key: Key, seqNo: int): Tracker {
    t.(order := t.order + [key], states := t.states[key := Opened(seqNo)],
       lives := t.lives[key := []], last := t.last[key := t.steps])
  }

  /** The first sessions are forgotten until the limit is met. */
  function Evicted(t: Tracker, limit: nat): Tracker
    decreases |t.order|
  {
    if |t.order| <= limit || t.order[0] !in t.states then t
    else
      WithoutShorter(t.order, t.order[0]);
      Evicted(Dropped(t, t.order[0], true), limit)
  }

  lemma {:induction false} WithoutShorter(order: seq<Key>, key: Key)
    ensures |Without(order, key)| <= |order|
    ensures key in order ==> |Without(order, key)| < |order|
  {
    if order != [] {
      WithoutShorter(order[..|order| - 1], key);
      assert order == order[..|order| - 1] + [order[|order| - 1]];
    }
  }

  /** The packet counted into its session and the totals. */
  function CountedIn(t: Tracker, d: Datagram): Tracker
    requires KeyOf(d.packet) in t.states && KeyOf(d.packet) in t.lives
  {
    var key, a := KeyOf(d.packet), ArrivalOf(d);
    var gap := GapOf(t.states[key], a);
    t.(states := t.states[key := Counted(t.states[key], a)],
       totalLost := if gap < HALF then t.totalLost + gap else t.totalLost,
       totalLate := if gap < HALF then t.totalLate else t.totalLate + a.count,
       lives := t.lives[key := t.lives[key] + [a]])
  }

  /** The session moves to the end of the dictionary. */
  function Touched(t: Tracker, key: Key): Tracker {
    t.(order := Without(t.order, key) + [key], last := t.last[key := t.steps])
  }

  /** The session the packet belongs to, tracked. */
  function TakenUp(t: Tracker, d: Datagram, limit: nat): Tracker {
    var key := KeyOf(d.packet);
    if key in t.states then t else Evicted(Added(t, key, d.packet.seqNo), limit)
  }

  /** The packet counted, and its session ended or moved to the end. */
  function Ended(t: Tracker, d: Datagram): Tracker
    requires KeyOf(d.packet) in t.states && KeyOf(d.packet) in t.lives
  {
    var counted := CountedIn(t, d);
    if d.packet.Last() then Dropped(counted, KeyOf(d.packet), false) else Touched(counted, KeyOf(d.packet))
  }

  /** `observe`. */
  function Observed(t: Tracker, d: Datagram, limit: nat): Tracker {
    var key := KeyOf(d.packet);
    var t1 := TakenUp(t, d, limit);
    if key !in t1.states || key !in t1.lives then t1
    else
      var t2 := Ended(t1, d);
      t2.(steps := t2.steps + 1)
  }

  function Run(ds: seq<Datagram>, limit: nat): Tracker {
    if ds == [] then Initial() else Observed(Run(ds[..|ds| - 1], limit), ds[|ds| - 1], limit)
  }

  // ---------------------------------------------------------------- lists and sums

  lemma {:induction false} WithoutMembers(order: seq<Key>, key: Key, x: Key)
    ensures x in Without(order, key) <==> x in order && x != key
  {
    if order != [] {
      WithoutMembers(order[..|order| - 1], key, x);
      assert order == order[..|order| - 1] + [order[|order| - 1]];
    }
  }

  lemma {:induction false} WithoutAbsent(order: seq<Key>, key: Key)
    requires key !in order
    ensures Without(order, key) == order
  {
    if order != [] {
      assert order == order[..|order| - 1] + [order[|order| - 1]];
      WithoutAbsent(order[..|order| - 1], key);
    }
  }

  lemma {:induction false} WithoutDistinct(order: seq<Key>, key: Key)
    requires Distinct(order)
    ensures Distinct(Without(order, key))
    ensures key in order ==> |Without(order, key)| == |order| - 1
  {
    if order != [] {
      var front, x := order[..|order| - 1], order[|order| - 1];
      assert order == front + [x];
      WithoutDistinct(front, key);
      if x == key {
        WithoutAbsent(front, key);
      } else {
        WithoutMembers(front, key, x);
      }
    }
  }

  function Counter(s: SeqState, late: bool): int {
    if late then s.late else s.lost
  }

  /** The sum of a counter over the sessions listed. */
  function Sum(order: seq<Key>, states: map<Key, SeqState>, late: bool): int
    requires forall k :: k in order ==> k in states
  {
    if order == [] then 0
    else
      assert order[|order| - 1] in order;
      Sum(order[..|order| - 1], states, late) + Counter(states[order[|order| - 1]], late)
  }

  lemma {:induction false} SumSame(order: seq<Key>, a: map<Key, SeqState>, b: map<Key, SeqState>, late: bool)
    requires forall k :: k in order ==> k in a && k in b && a[k] == b[k]
    ensures Sum(order, a, late) == Sum(order, b, late)
  {
    if order != [] {
      assert order[|order| - 1] in order;
      SumSame(order[..|order| - 1], a, b, late);
    }
  }

  lemma {:induction false} SumWithout(order: seq<Key>, states: map<Key, SeqState>, key: Key, late: bool)
    requires (forall k :: k in order ==> k in states) && Distinct(order) && key in order
    ensures forall k :: k in Without(order, key) ==> k in states
    ensures Sum(Without(order, key), states, late) == Sum(order, states, late) - Counter(states[key], late)
  {
    var front, x := order[..|order| - 1], order[|order| - 1];
    assert order == front + [x];
    if x == key {
      WithoutAbsent(front, key);
    } else {
      SumWithout(front, states, key, late);
      assert Without(order, key)[..|Without(front, key)|] == Without(front, key);
    }
  }

  lemma {:induction false} SumChanged(order: seq<Key>, a: map<Key, SeqState>, b: map<Key, SeqState>, key: Key, late: bool)
    requires Distinct(order) && key in order && (forall k :: k in order ==> k in a && k in b)
    requires forall k :: k in order && k != key ==> a[k] == b[k]
    ensures Sum(order, b, late) == Sum(order, a, late) + Counter(b[key], late) - Counter(a[key], late)
  {
    var front, x := order[..|order| - 1], order[|order| - 1];
    assert order == front + [x];
    if x == key {
      SumSame(front, a, b, late);
    } else {
      SumChanged(front, a, b, key, late);
    }
  }

  lemma SumSnoc(order: seq<Key>, states: map<Key, SeqState>, key: Key, late: bool)
    requires (forall k :: k in order ==> k in states) && key in states
    ensures Sum(order + [key], states, late) == Sum(order, states, late) + Counter(states[key], late)
  {
    assert (order + [key])[..|order|] == order;
  }

  function GoneSum(gone: seq<Gone>, late: bool): int {
    if gone == [] then 0 else GoneSum(gone[..|gone| - 1], late) + Counter(gone[|gone| - 1].state, late)
  }

  function Forgotten(gone: seq<Gone>): int {
    if gone == [] then 0 else Forgotten(gone[..|gone| - 1]) + if gone[|gone| - 1].forgotten then 1 else 0
  }

  lemma GoneSnoc(gone: seq<Gone>, g: Gone, late: bool)
    ensures GoneSum(gone + [g], late) == GoneSum(gone, late) + Counter(g.state, late)
    ensures Forgotten(gone + [g]) == Forgotten(gone) + if g.forgotten then 1 else 0
  {
    assert (gone + [g])[..|gone|] == gone;
  }

  // ---------------------------------------------------------------- the invariant

  /** The totals are the sums over the tracked, the forgotten and the ended sessions. */
  ghost predicate Balanced(t: Tracker) {
    && (forall k :: k in t.order ==> k in t.states)
    && t.totalLost == Sum(t.order, t.states, false) + GoneSum(t.gone, false)
    && t.totalLate == Sum(t.order, t.states, true) + GoneSum(t.gone, true)
    && t.evicted == Forgotten(t.gone)
  }

  ghost predicate AccountedOne(state: SeqState, life: seq<Arrival>) {
    if life == [] then state == Opened(state.nextSeq) else state == Account(life)
  }

  /** Each session's counters are what its arrivals since it was taken up make them. */
  ghost predicate Accounted(t: Tracker) {
    forall k :: k in t.states ==> k in t.lives && AccountedOne(t.states[k], t.lives[k])
  }

  ghost predicate Sorted(order: seq<Key>, last: map<Key, nat>) {
    && (forall k :: k in order ==> k in last)
    && (forall i, j :: 0 <= i < j < |order| ==> last[order[i]] < last[order[j]])
  }

  /** The dictionary runs from the least to the most recently received. */
  ghost predicate ByRecency(t: Tracker) {
    Sorted(t.order, t.last) && forall k :: k in t.last ==> t.last[k] <= t.steps
  }

  /** What holds at every point inside a step. */
  ghost predicate Midway(t: Tracker) {
    Listed(t) && Balanced(t) && Accounted(t) && ByRecency(t)
  }

  lemma MidwayParts(t: Tracker)
    ensures Midway(t) <==> Listed(t) && Balanced(t) && Accounted(t) && ByRecency(t)
  {
    hide Listed, Balanced, Accounted, ByRecency;
  }

  /** Every tracked session has received something, before now. */
  ghost predicate Settled(t: Tracker) {
    && (forall k :: k in t.states ==> k in t.lives && t.lives[k] != [])
    && (forall k :: k in t.last ==> t.last[k] < t.steps)
  }

  /** What holds between packets. */
  ghost predicate Inv(t: Tracker, limit: nat) {
    Midway(t) && Settled(t) && |t.order| <= limit
  }

  // ---------------------------------------------------------------- a session leaves

  lemma DroppedListed(t: Tracker, key: Key, forgotten: bool)
    requires Listed(t) && key in t.states
    ensures Listed(Dropped(t, key, forgotten)) && |Dropped(t, key, forgotten).order| == |t.order| - 1
  {
    WithoutDistinct(t.order, key);
    forall k ensures k in Without(t.order, key) <==> k in t.states - {key} {
      WithoutMembers(t.order, key, k);
    }
  }

  lemma DroppedBalanced(t: Tracker, key: Key, forgotten: bool)
    requires Listed(t) && key in t.states && Balanced(t)
    ensures Balanced(Dropped(t, key, forgotten))
  {
    var rest, states := Without(t.order, key), t.states - {key};
    var g := Gone(key, t.states[key], forgotten);
    forall k | k in rest ensures k in states && states[k] == t.states[k] {
      WithoutMembers(t.order, key, k);
    }
    SumWithout(t.order, t.states, key, false);
    SumWithout(t.order, t.states, key, true);
    SumSame(rest, t.states, states, false);
    SumSame(rest, t.states, states, true);
    GoneSnoc(t.gone, g, false);
    GoneSnoc(t.gone, g, true);
  }

  lemma {:induction false} WithoutSorted(order: seq<Key>, last: map<Key, nat>, key: Key)
    requires Sorted(order, last)
    ensures Sorted(Without(order, key), last)
  {
    if order != [] {
      var front, x := order[..|order| - 1], order[|order| - 1];
      assert order == front + [x];
      SortedFront(front, x, last);
      hide Sorted;
      WithoutSorted(front, last, key);
      if x != key {
        SortedBefore(Without(front, key), front, x, last, key);
      }
    }
  }

  lemma SortedFront(front: seq<Key>, x: Key, last: map<Key, nat>)
    requires Sorted(front + [x], last)
    ensures Sorted(front, last) && x in last && forall k :: k in front ==> k in last && last[k] < last[x]
  {
    var order := front + [x];
    assert order[|front|] == x && x in order;
    forall k | k in front ensures k in last && last[k] < last[x] {
      var j :| 0 <= j < |front| && front[j] == k;
      assert order[j] == k && k in order;
    }
    assert forall i :: 0 <= i < |front| ==> front[i] == order[i];
    assert forall k :: k in front ==> k in order;
  }

  lemma SortedBefore(rest: seq<Key>, front: seq<Key>, x: Key, last: map<Key, nat>, key: Key)
    requires rest == Without(front, key) && Sorted(rest, last) && x in last
    requires forall k :: k in front ==> k in last && last[k] < last[x]
    ensures Sorted(rest + [x], last)
  {
    hide Without;
    forall i | 0 <= i < |rest| ensures last[rest[i]] < last[x] {
      WithoutMembers(front, key, rest[i]);
    }
  }

  lemma SortedSame(order: seq<Key>, last: map<Key, nat>, other: map<Key, nat>)
    requires Sorted(order, last) && forall k :: k in order ==> k in other && other[k] == last[k]
    ensures Sorted(order, other)
  {
    forall i, j | 0 <= i < j < |order| ensures other[order[i]] < other[order[j]] {
      assert order[i] in order && order[j] in order;
    }
  }

  lemma DroppedByRecency(t: Tracker, key: Key, forgotten: bool)
    requires key in t.states && ByRecency(t)
    ensures ByRecency(Dropped(t, key, forgotten))
  {
    WithoutSorted(t.order, t.last, key);
    forall k | k in Without(t.order, key) ensures k in t.last - {key} && (t.last - {key})[k] == t.last[k] {
      WithoutMembers(t.order, key, k);
      assert k in t.order;
    }
    SortedSame(Without(t.order, key), t.last, t.last - {key});
  }

  lemma DroppedAccounted(t: Tracker, key: Key, forgotten: bool)
    requires Accounted(t) && key in t.states
    ensures Accounted(Dropped(t, key, forgotten))
  {
    hide Without, AccountedOne;
  }

  lemma DroppedMidway(t: Tracker, key: Key, forgotten: bool)
    requires Midway(t) && key in t.states
    ensures Midway(Dropped(t, key, forgotten)) && |Dropped(t, key, forgotten).order| == |t.order| - 1
  {
    hide Listed, Balanced, Accounted, ByRecency, Midway;
    MidwayParts(t);
    DroppedListed(t, key, forgotten);
    DroppedBalanced(t, key, forgotten);
    DroppedAccounted(t, key, forgotten);
    DroppedByRecency(t, key, forgotten);
    MidwayParts(Dropped(t, key, forgotten));
  }

  // ---------------------------------------------------------------- a session enters

  lemma AddedListed(t: Tracker, key: Key, seqNo: int)
    requires Listed(t) && key !in t.states
    ensures Listed(Added(t, key, seqNo)) && |Added(t, key, seqNo).order| == |t.order| + 1
  {
    assert key !in t.order;
  }

  lemma AddedBalanced(t: Tracker, key: Key, seqNo: int)
    requires Listed(t) && Balanced(t) && key !in t.states
    ensures Balanced(Added(t, key, seqNo))
  {
    var states := t.states[key := Opened(seqNo)];
    SumSame(t.order, t.states, states, false);
    SumSame(t.order, t.states, states, true);
    SumSnoc(t.order, states, key, false);
    SumSnoc(t.order, states, key, true);
  }

  lemma AppendedByRecency(order: seq<Key>, last: map<Key, nat>, key: Key, now: nat)
    requires Sorted(order, last) && key !in order && forall k :: k in order ==> last[k] < now
    ensures Sorted(order + [key], last[key := now])
  {
    SortedSame(order, last, last[key := now]);
    forall i | 0 <= i < |order| ensures last[key := now][order[i]] < now {
      assert order[i] in order;
    }
  }

  lemma AddedMidway(t: Tracker, key: Key, seqNo: int)
    requires Midway(t) && Settled(t) && key !in t.states
    ensures Midway(Added(t, key, seqNo)) && |Added(t, key, seqNo).order| == |t.order| + 1
  {
    hide Listed, Balanced, Accounted, ByRecency, Midway;
    MidwayParts(t);
    AddedListed(t, key, seqNo);
    AddedBalanced(t, key, seqNo);
    AddedAccounted(t, key, seqNo);
    AddedByRecency(t, key, seqNo);
    MidwayParts(Added(t, key, seqNo));
  }

  lemma AddedByRecency(t: Tracker, key: Key, seqNo: int)
    requires Listed(t) && ByRecency(t) && Settled(t) && key !in t.states
    ensures ByRecency(Added(t, key, seqNo))
  {
    AppendedByRecency(t.order, t.last, key, t.steps);
    hide Sorted;
  }

  lemma AddedAccounted(t: Tracker, key: Key, seqNo: int)
    requires Accounted(t)
    ensures Accounted(Added(t, key, seqNo))
  {
    assert AccountedOne(Opened(seqNo), []);
    hide AccountedOne;
  }

  // ---------------------------------------------------------------- forgetting for room

  lemma {:induction false} DropFirst(order: seq<Key>, first: Key)
    requires order != [] && Distinct(order) && first == order[0]
    ensures Without(order, first) == order[1..]
  {
    if |order| > 1 {
      DropFirst(order[..|order| - 1], first);
    }
  }

  /** The same sessions with the same state, apart from those missing. */
  ghost predicate Part(u: Tracker, t: Tracker) {
    && (forall k :: k in u.states ==> k in t.states && u.states[k] == t.states[k])
    && (forall k :: k in u.lives ==> k in t.lives && u.lives[k] == t.lives[k])
    && (forall k :: k in u.last ==> k in t.last && u.last[k] == t.last[k])
    && u.steps == t.steps
  }

  lemma FrontIsTracked(t: Tracker)
    requires Midway(t) && t.order != []
    ensures t.order[0] in t.states && Distinct(t.order)
  {
    hide Balanced, Accounted, ByRecency;
    assert t.order[0] in t.order;
  }

  lemma DroppedPart(t: Tracker, key: Key, u: Tracker)
    requires key in t.states && Part(u, Dropped(t, key, true))
    ensures Part(u, t)
  {
    hide Without;
  }

  /** Forgetting stops at the limit and takes only sessions from the front. */
  lemma {:induction false} EvictedMidway(t: Tracker, limit: nat)
    requires Midway(t)
    ensures var u := Evicted(t, limit);
      && Midway(u) && Part(u, t)
      && |u.order| == (if |t.order| <= limit then |t.order| else limit)
      && u.order == t.order[|t.order| - |u.order|..]
    decreases |t.order|
  {
    hide Midway, Listed, Without;
    if |t.order| > limit {
      var first := t.order[0];
      FrontIsTracked(t);
      var rest := Dropped(t, first, true);
      DroppedMidway(t, first, true);
      DropFirst(t.order, first);
      EvictedMidway(rest, limit);
      DroppedPart(t, first, Evicted(rest, limit));
      assert rest.order == t.order[1..];
    }
  }

  // ---------------------------------------------------------------- counting

  lemma CountedBalanced(t: Tracker, d: Datagram)
    requires Listed(t) && Balanced(t) && KeyOf(d.packet) in t.states && KeyOf(d.packet) in t.lives
    ensures Balanced(CountedIn(t, d))
  {
    var key, a := KeyOf(d.packet), ArrivalOf(d);
    var states := t.states[key := Counted(t.states[key], a)];
    SumChanged(t.order, t.states, states, key, false);
    SumChanged(t.order, t.states, states, key, true);
  }

  /** An arrival appended to a history counts on from its state. */
  lemma CountsOn(state: SeqState, life: seq<Arrival>, a: Arrival)
    requires AccountedOne(state, life) && (life == [] ==> state.nextSeq == a.seqNo)
    ensures AccountedOne(Counted(state, a), life + [a])
  {
    assert (life + [a])[..|life|] == life;
  }

  lemma CountedAccounted(t: Tracker, d: Datagram)
    requires Accounted(t) && KeyOf(d.packet) in t.states && KeyOf(d.packet) in t.lives
    requires var key := KeyOf(d.packet); t.lives[key] == [] ==> t.states[key].nextSeq == d.packet.seqNo
    ensures Accounted(CountedIn(t, d))
  {
    CountsOn(t.states[KeyOf(d.packet)], t.lives[KeyOf(d.packet)], ArrivalOf(d));
    hide AccountedOne, Counted;
  }

  lemma CountedListed(t: Tracker, d: Datagram)
    requires Listed(t) && KeyOf(d.packet) in t.states && KeyOf(d.packet) in t.lives
    ensures Listed(CountedIn(t, d))
  {
    hide Counted;
  }

  lemma CountedMidway(t: Tracker, d: Datagram)
    requires Midway(t) && KeyOf(d.packet) in t.states && KeyOf(d.packet) in t.lives
    requires var key := KeyOf(d.packet); t.lives[key] == [] ==> t.states[key].nextSeq == d.packet.seqNo
    ensures Midway(CountedIn(t, d))
  {
    hide Listed, Balanced, Accounted, ByRecency, Midway;
    MidwayParts(t);
    CountedListed(t, d);
    CountedBalanced(t, d);
    CountedAccounted(t, d);
    SameRecency(t, CountedIn(t, d));
    MidwayParts(CountedIn(t, d));
  }

  lemma SameRecency(t: Tracker, u: Tracker)
    requires ByRecency(t) && u.order == t.order && u.last == t.last && t.steps <= u.steps
    ensures ByRecency(u)
  {}

  // ---------------------------------------------------------------- moving to the end

  lemma TouchedListed(t: Tracker, key: Key)
    requires Listed(t) && key in t.states
    ensures Listed(Touched(t, key)) && |Touched(t, key).order| == |t.order|
  {
    WithoutDistinct(t.order, key);
    forall k ensures k in Without(t.order, key) <==> k in t.order && k != key {
      WithoutMembers(t.order, key, k);
    }
  }

  lemma TouchedBalanced(t: Tracker, key: Key)
    requires Listed(t) && key in t.states && Balanced(t)
    ensures Balanced(Touched(t, key))
  {
    SumWithout(t.order, t.states, key, false);
    SumWithout(t.order, t.states, key, true);
    SumSnoc(Without(t.order, key), t.states, key, false);
    SumSnoc(Without(t.order, key), t.states, key, true);
  }

  lemma TouchedAccounted(t: Tracker, key: Key)
    requires Accounted(t)
    ensures Accounted(Touched(t, key))
  {
    hide Without, AccountedOne;
  }

  lemma TouchedByRecency(t: Tracker, key: Key)
    requires ByRecency(t) && forall k :: k in t.last && k != key ==> t.last[k] < t.steps
    ensures ByRecency(Touched(t, key))
  {
    WithoutSorted(t.order, t.last, key);
    forall k | k in Without(t.order, key) ensures k != key && k in t.last {
      WithoutMembers(t.order, key, k);
      assert k in t.order;
    }
    hide Without;
    assert key !in Without(t.order, key);
    AppendedByRecency(Without(t.order, key), t.last, key, t.steps);
    hide Sorted;
  }

  lemma TouchedMidway(t: Tracker, key: Key)
    requires Midway(t) && key in t.states && forall k :: k in t.last && k != key ==> t.last[k] < t.steps
    ensures Midway(Touched(t, key)) && |Touched(t, key).order| == |t.order|
  {
    hide Listed, Balanced, Accounted, ByRecency, Midway;
    MidwayParts(t);
    TouchedListed(t, key);
    TouchedBalanced(t, key);
    TouchedAccounted(t, key);
    TouchedByRecency(t, key);
    MidwayParts(Touched(t, key));
  }

  // ---------------------------------------------------------------- a packet

  /** Every other tracked session has received something, before now. */
  ghost predicate SettledBut(t: Tracker, key: Key) {
    && (forall k :: k in t.lives && k != key ==> t.lives[k] != [])
    && (forall k :: k in t.last && k != key ==> t.last[k] < t.steps)
  }

  lemma PartSettled(t: Tracker, key: Key, seqNo: int, u: Tracker)
    requires Listed(t) && Settled(t) && Part(u, Added(t, key, seqNo)) && key in u.states && key in u.lives
    ensures SettledBut(u, key) && u.states[key].nextSeq == seqNo && u.steps == t.steps
  {}

  lemma LastStays(order: seq<Key>, key: Key, kept: seq<Key>)
    requires |kept| <= |order| + 1 && kept != [] && kept == (order + [key])[|order| + 1 - |kept|..]
    ensures key in kept
  {
    assert kept[|kept| - 1] == key;
  }

  lemma InvParts(t: Tracker, limit: nat)
    requires Inv(t, limit)
    ensures Midway(t) && Settled(t) && Listed(t) && |t.order| <= limit
  {
    hide Settled, Balanced, Accounted, ByRecency;
  }

  lemma AlreadySettled(t: Tracker, key: Key)
    requires Listed(t) && Settled(t) && key in t.states
    ensures SettledBut(t, key) && key in t.lives && t.lives[key] != []
  {}

  lemma AddedOrder(t: Tracker, key: Key, seqNo: int)
    ensures Added(t, key, seqNo).order == t.order + [key] && Added(t, key, seqNo).steps == t.steps
  {}

  lemma TrackedIsListed(t: Tracker, key: Key)
    requires Midway(t) && key in t.order
    ensures key in t.states && key in t.lives
  {
    hide Balanced, Accounted, ByRecency;
  }

  /** A new session is tracked afterwards, whatever had to be forgotten for it. */
  lemma TakenUpMidway(t: Tracker, d: Datagram, limit: nat)
    requires Inv(t, limit) && limit >= 1
    ensures var u, key := TakenUp(t, d, limit), KeyOf(d.packet);
      && Midway(u) && |u.order| <= limit && key in u.states && key in u.lives && u.steps == t.steps
      && (u.lives[key] == [] ==> u.states[key].nextSeq == d.packet.seqNo)
      && SettledBut(u, key)
  {
    hide Midway, Listed, SettledBut, Part, Added, Evicted;
    var key := KeyOf(d.packet);
    InvParts(t, limit);
    if key in t.states {
      AlreadySettled(t, key);
    } else {
      AddedMidway(t, key, d.packet.seqNo);
      var added := Added(t, key, d.packet.seqNo);
      AddedOrder(t, key, d.packet.seqNo);
      EvictedMidway(added, limit);
      var u := Evicted(added, limit);
      LastStays(t.order, key, u.order);
      TrackedIsListed(u, key);
      PartSettled(t, key, d.packet.seqNo, u);
    }
  }

  /** Every packet keeps the invariant. */
  lemma ObservedKeepsInv(t: Tracker, d: Datagram, limit: nat)
    requires Inv(t, limit) && limit >= 1
    ensures Inv(Observed(t, d, limit), limit) && Observed(t, d, limit).steps == t.steps + 1
  {
    hide Inv, Midway, Listed, Settled, SettledBut, TakenUp, CountedIn, Touched, Dropped;
    var key := KeyOf(d.packet);
    TakenUpMidway(t, d, limit);
    var t1 := TakenUp(t, d, limit);
    MidwayParts(t1);
    CountedMidway(t1, d);
    CountedKeys(t1, d);
    EndSettled(t1, d);
    var t2 := CountedIn(t1, d);
    if d.packet.Last() {
      DroppedMidway(t2, key, false);
    } else {
      TouchedMidway(t2, key);
    }
    LaterStep(Ended(t1, d));
    EndSteps(t1, d);
    InvFromParts(Observed(t, d, limit), limit);
  }

  lemma InvFromParts(t: Tracker, limit: nat)
    requires Midway(t) && Settled(t) && |t.order| <= limit
    ensures Inv(t, limit)
  {
    hide Midway, Settled;
  }

  lemma CountedKeys(t: Tracker, d: Datagram)
    requires KeyOf(d.packet) in t.states && KeyOf(d.packet) in t.lives && SettledBut(t, KeyOf(d.packet))
    ensures var u := CountedIn(t, d);
      && KeyOf(d.packet) in u.states && u.order == t.order && u.steps == t.steps
      && (forall k :: k in u.last && k != KeyOf(d.packet) ==> u.last[k] < u.steps)
  {
    hide Counted;
  }

  lemma EndSteps(t: Tracker, d: Datagram)
    requires KeyOf(d.packet) in t.states && KeyOf(d.packet) in t.lives
    ensures Ended(t, d).steps == t.steps
  {}

  lemma EndSettled(t: Tracker, d: Datagram)
    requires KeyOf(d.packet) in t.states && KeyOf(d.packet) in t.lives && SettledBut(t, KeyOf(d.packet)) && Listed(t)
    ensures var u := Ended(t, d); Settled(u.(steps := u.steps + 1))
  {
    hide Without, Counted;
  }

  lemma LaterParts(t: Tracker)
    requires Listed(t) && Balanced(t) && Accounted(t) && ByRecency(t)
    ensures var u := t.(steps := t.steps + 1); Listed(u) && Balanced(u) && Accounted(u) && ByRecency(u)
  {
    hide Sorted, AccountedOne;
  }

  lemma LaterStep(t: Tracker)
    requires Midway(t)
    ensures Midway(t.(steps := t.steps + 1))
  {
    hide Listed, Balanced, Accounted, ByRecency, Midway;
    MidwayParts(t);
    LaterParts(t);
    MidwayParts(t.(steps := t.steps + 1));
  }

  lemma {:induction false} RunInv(ds: seq<Datagram>, limit: nat)
    requires limit >= 1
    ensures Inv(Run(ds, limit), limit) && Run(ds, limit).steps == |ds|
  {
    hide Inv, Observed;
    if ds == [] {
      InitialInv(limit);
    } else {
      RunInv(ds[..|ds| - 1], limit);
      ObservedKeepsInv(Run(ds[..|ds| - 1], limit), ds[|ds| - 1], limit);
    }
  }

  lemma InitialInv(limit: nat)
    ensures Inv(Initial(), limit)
  {
    InitialBalanced();
    hide Balanced;
  }

  lemma InitialBalanced()
    ensures Balanced(Initial())
  {}
}
