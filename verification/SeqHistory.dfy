/** What the loss tracker promises over every run of packets, and the class that does it (ingest/udp.py). */
module SeqHistory {
  import opened Prelude
  import opened Packets
  import opened SeqLedgers
  import opened SeqTrackers

  /** Everything a session sent in a run. */
  function ArrivalsOf(ds: seq<Datagram>, key: Key): seq<Arrival> {
    if ds == [] then []
    else
      var front, d := ds[..|ds| - 1], ds[|ds| - 1];
      if KeyOf(d.packet) == key then ArrivalsOf(front, key) + [ArrivalOf(d)] else ArrivalsOf(front, key)
  }

  ghost predicate HasGone(t: Tracker, key: Key) {
    exists i :: 0 <= i < |t.gone| && t.gone[i].key == key
  }

  function LifeBefore(t: Tracker, key: Key): seq<Arrival> {
    if key in t.states && key in t.lives then t.lives[key] else []
  }

  /** How one packet changes what is tracked. */
  ghost predicate Moves(t: Tracker, d: Datagram, u: Tracker) {
    var key := KeyOf(d.packet);
    && (key in u.states <==> !d.packet.Last())
    && (forall k :: k in u.states && k != key ==> k in t.states)
    && (forall k :: k in u.states ==> k in u.lives && k in u.last)
    && (forall k :: k in u.states ==>
          u.lives[k] == if k == key then LifeBefore(t, key) + [ArrivalOf(d)] else LifeBefore(t, k))
    && (forall k :: k in u.states && k != key ==> k in t.last && u.last[k] == t.last[k])
    && (key in u.states ==> u.last[key] == t.steps)
    && (forall k :: HasGone(t, k) ==> HasGone(u, k))
    && (forall k :: (k in t.states || k == key) && k !in u.states ==> HasGone(u, k))
  }

  lemma GoneGrows(t: Tracker, key: Key, forgotten: bool)
    requires key in t.states
    ensures forall k :: HasGone(t, k) ==> HasGone(Dropped(t, key, forgotten), k)
    ensures HasGone(Dropped(t, key, forgotten), key)
  {
    var u := Dropped(t, key, forgotten);
    hide Without;
    assert u.gone[|t.gone|].key == key;
    forall k | HasGone(t, k) ensures HasGone(u, k) {
      var i :| 0 <= i < |t.gone| && t.gone[i].key == k;
      assert u.gone[i].key == k;
    }
  }

  /** A session that leaves while room is made is remembered as gone. */
  lemma {:induction false} EvictedGone(t: Tracker, limit: nat)
    requires Midway(t)
    ensures var u := Evicted(t, limit);
      && (forall k :: HasGone(t, k) ==> HasGone(u, k))
      && (forall k :: k in t.states && k !in u.states ==> HasGone(u, k))
    decreases |t.order|
  {
    hide Midway, HasGone, Without;
    if |t.order| > limit {
      var first := t.order[0];
      FrontIsTracked(t);
      DroppedMidway(t, first, true);
      GoneGrows(t, first, true);
      EvictedGone(Dropped(t, first, true), limit);
    }
  }

  /** The session is ready for the packet, the others are as they were or gone. */
  ghost predicate Ready(t: Tracker, d: Datagram, u: Tracker) {
    var key := KeyOf(d.packet);
    && key in u.states && key in u.lives && u.lives[key] == LifeBefore(t, key) && u.steps == t.steps
    && (forall k :: k in u.states ==> k in u.lives && k in u.last)
    && (forall k :: k in u.states && k != key ==> k in t.states && u.lives[k] == LifeBefore(t, k))
    && (forall k :: k in u.states && k != key ==> k in t.last && u.last[k] == t.last[k])
    && (forall k :: HasGone(t, k) ==> HasGone(u, k))
    && (forall k :: k in t.states && k !in u.states ==> HasGone(u, k))
  }

  lemma TakenUpReady(t: Tracker, d: Datagram, limit: nat)
    requires Inv(t, limit) && limit >= 1
    ensures Ready(t, d, TakenUp(t, d, limit))
  {
    hide Inv, Midway, Listed, Settled, SettledBut, Ready, Added, Evicted, HasGone, Part;
    var key := KeyOf(d.packet);
    InvParts(t, limit);
    TakenUpMidway(t, d, limit);
    var u := TakenUp(t, d, limit);
    TrackedAreListed(u);
    if key in t.states {
      AlreadyReady(t, d);
    } else {
      var added := Added(t, key, d.packet.seqNo);
      AddedMidway(t, key, d.packet.seqNo);
      EvictedMidway(added, limit);
      EvictedGone(added, limit);
      AddedGone(t, key, d.packet.seqNo);
      ReadyFromPart(t, d, u);
    }
  }

  lemma AlreadyReady(t: Tracker, d: Datagram)
    requires KeyOf(d.packet) in t.states && forall k :: k in t.states ==> k in t.lives && k in t.last
    ensures Ready(t, d, t)
  {
    hide HasGone;
  }

  lemma AddedGone(t: Tracker, key: Key, seqNo: int)
    ensures forall k :: HasGone(t, k) <==> HasGone(Added(t, key, seqNo), k)
    ensures forall k :: k in t.states ==> k in Added(t, key, seqNo).states
  {}

  lemma ReadyFromPart(t: Tracker, d: Datagram, u: Tracker)
    requires Listed(t) && KeyOf(d.packet) !in t.states && Part(u, Added(t, KeyOf(d.packet), d.packet.seqNo))
    requires KeyOf(d.packet) in u.states && forall k :: k in u.states ==> k in u.lives && k in u.last
    requires forall k :: HasGone(t, k) ==> HasGone(u, k)
    requires forall k :: k in t.states && k !in u.states ==> HasGone(u, k)
    ensures Ready(t, d, u)
  {
    hide HasGone;
  }

  lemma TrackedAreListed(t: Tracker)
    requires Midway(t)
    ensures forall k :: k in t.states ==> k in t.lives && k in t.last
  {
    hide Balanced, Accounted, ByRecency;
  }

  lemma SameGone(t: Tracker, u: Tracker)
    requires t.gone == u.gone
    ensures forall k :: HasGone(t, k) <==> HasGone(u, k)
  {}

  /** The packet counted in, the rest as before. */
  lemma CountedReady(t: Tracker, d: Datagram, t1: Tracker)
    requires Ready(t, d, t1)
    ensures var u, key := CountedIn(t1, d), KeyOf(d.packet);
      && key in u.states && key in u.lives && u.lives[key] == LifeBefore(t, key) + [ArrivalOf(d)] && u.steps == t.steps
      && (forall k :: k in u.states ==> k in u.lives && k in u.last)
      && (forall k :: k in u.states && k != key ==> k in t.states && u.lives[k] == LifeBefore(t, k))
      && (forall k :: k in u.states && k != key ==> k in t.last && u.last[k] == t.last[k])
      && (forall k :: HasGone(t, k) ==> HasGone(u, k))
      && (forall k :: k in t.states && k !in u.states ==> HasGone(u, k))
  {
    SameGone(t1, CountedIn(t1, d));
    hide HasGone, Counted, GapOf;
  }

  lemma EndedMoves(t: Tracker, d: Datagram, t1: Tracker)
    requires Ready(t, d, t1)
    ensures var u := Ended(t1, d); Moves(t, d, u.(steps := u.steps + 1))
  {
    hide HasGone, Without, CountedIn, LifeBefore, ArrivalOf;
    var key := KeyOf(d.packet);
    var t2 := CountedIn(t1, d);
    var u := Ended(t1, d);
    CountedReady(t, d, t1);
    hide Ready;
    SameGone(u, u.(steps := u.steps + 1));
    if d.packet.Last() {
      GoneGrows(t2, key, false);
    } else {
      SameGone(t2, u);
    }
  }

  lemma ObservedMoves(t: Tracker, d: Datagram, limit: nat)
    requires Inv(t, limit) && limit >= 1
    ensures Moves(t, d, Observed(t, d, limit))
  {
    hide Inv, Midway, Listed, SettledBut, TakenUp, Ended, Moves, Ready, HasGone;
    TakenUpMidway(t, d, limit);
    TakenUpReady(t, d, limit);
    EndedMoves(t, d, TakenUp(t, d, limit));
  }

  // ---------------------------------------------------------------- every run

  /** What the run says about one session. */
  ghost predicate Traced(t: Tracker, ds: seq<Datagram>, key: Key) {
    var all := ArrivalsOf(ds, key);
    && (key in t.states ==>
         && key in t.lives && key in t.last
         && |t.lives[key]| <= |all| && t.lives[key] == all[|all| - |t.lives[key]|..]
         && t.last[key] < |ds| && KeyOf(ds[t.last[key]].packet) == key
         && (forall j :: t.last[key] < j < |ds| ==> KeyOf(ds[j].packet) != key))
    && (!HasGone(t, key) ==> LifeBefore(t, key) == all)
  }

  /**
   * A tracked session's history is the tail of what it sent, and all of it unless it was forgotten or ended in between;
   * and its latest packet is where the tracker thinks it is.
   */
  lemma {:induction false} EverySessionIsTraced(ds: seq<Datagram>, limit: nat, key: Key)
    requires limit >= 1
    ensures Traced(Run(ds, limit), ds, key)
  {
    hide Inv, Moves, Traced, Observed;
    if ds == [] {
      NothingTraced(key);
    } else {
      var front, d := ds[..|ds| - 1], ds[|ds| - 1];
      RunInv(front, limit);
      EverySessionIsTraced(front, limit, key);
      ObservedMoves(Run(front, limit), d, limit);
      TracedStep(Run(front, limit), front, d, Run(ds, limit), key);
      assert ds == front + [d];
    }
  }

  lemma NothingTraced(key: Key)
    ensures Traced(Initial(), [], key)
  {}

  lemma TracedStep(t: Tracker, front: seq<Datagram>, d: Datagram, u: Tracker, key: Key)
    requires Traced(t, front, key) && Moves(t, d, u) && t.steps == |front|
    ensures Traced(u, front + [d], key)
  {
    hide HasGone;
    var ds := front + [d];
    assert ds[..|front|] == front;
    if key != KeyOf(d.packet) {
      TracedOther(t, front, d, u, key);
    } else {
      hide ArrivalsOf;
      ArrivalsSnoc(front, d);
      if key in u.states {
        SuffixSnoc(LifeBefore(t, key), ArrivalsOf(front, key), ArrivalOf(d));
      }
    }
  }

  lemma ArrivalsSnoc(front: seq<Datagram>, d: Datagram)
    ensures ArrivalsOf(front + [d], KeyOf(d.packet)) == ArrivalsOf(front, KeyOf(d.packet)) + [ArrivalOf(d)]
    ensures forall key :: key != KeyOf(d.packet) ==> ArrivalsOf(front + [d], key) == ArrivalsOf(front, key)
  {
    assert (front + [d])[..|front|] == front;
  }

  lemma TracedOther(t: Tracker, front: seq<Datagram>, d: Datagram, u: Tracker, key: Key)
    requires Traced(t, front, key) && Moves(t, d, u) && key != KeyOf(d.packet)
    ensures Traced(u, front + [d], key)
  {
    hide HasGone, ArrivalsOf;
    ArrivalsSnoc(front, d);
    var ds := front + [d];
    assert forall j :: 0 <= j < |front| ==> ds[j] == front[j];
  }

  lemma SuffixSnoc(life: seq<Arrival>, all: seq<Arrival>, a: Arrival)
    requires |life| <= |all| && life == all[|all| - |life|..]
    ensures life + [a] == (all + [a])[|all| + 1 - |life + [a]|..]
  {}

  lemma {:induction false} ArrivalsAreU32(ds: seq<Datagram>, key: Key)
    requires forall i :: 0 <= i < |ds| ==> IsU32(ds[i].packet.seqNo)
    ensures forall a :: a in ArrivalsOf(ds, key) ==> IsU32(a.seqNo)
  {
    if ds != [] {
      ArrivalsAreU32(ds[..|ds| - 1], key);
    }
  }

  /**
   * In every run, the counters of each tracked session are exactly what its packets mean: `received` and `late` count
   * cycles, `lost` counts the numbers between the first and the expected one that no packet brought on time, and
   * together they give the unrolled advance of the expected number.
   */
  lemma CountersMeanWhatTheySay(ds: seq<Datagram>, limit: nat, key: Key)
    requires limit >= 1 && key in Run(ds, limit).states
    requires forall i :: 0 <= i < |ds| ==> IsU32(ds[i].packet.seqNo)
    ensures var t := Run(ds, limit);
      && key in t.lives && t.lives[key] != []
      && var h, s := t.lives[key], t.states[key];
      && s.received == CycleCount(h, |h|) && s.late == LateCount(h, |h|) && s.lost == |Missing(h, |h|)|
      && s.nextSeq == Mask(Expected(h, |h|))
      && s.received - s.late + s.lost == Expected(h, |h|) - h[0].seqNo
  {
    var t := Run(ds, limit);
    RunInv(ds, limit);
    EverySessionIsTraced(ds, limit, key);
    ArrivalsAreU32(ds, key);
    var h := t.lives[key];
    SessionAccount(t, limit, key);
    hide Traced, Inv, Account;
    assert h != [] && t.states[key] == Account(h);
    forall i | 0 <= i < |h| ensures IsU32(h[i].seqNo) {
      LifeMember(t, ds, key, i);
    }
    AccountMeans(h);
  }

  lemma LifeMember(t: Tracker, ds: seq<Datagram>, key: Key, i: nat)
    requires Traced(t, ds, key) && key in t.states && i < |t.lives[key]|
    ensures t.lives[key][i] in ArrivalsOf(ds, key)
  {
    var all := ArrivalsOf(ds, key);
    assert t.lives[key][i] == all[|all| - |t.lives[key]| + i];
  }

  lemma SessionAccount(t: Tracker, limit: nat, key: Key)
    requires Inv(t, limit) && key in t.states
    ensures key in t.lives && t.lives[key] != [] && t.states[key] == Account(t.lives[key])
  {
    hide Listed, Balanced, ByRecency;
    assert AccountedOne(t.states[key], t.lives[key]);
  }

  /** In every run, the totals are the sums over the tracked sessions and those forgotten or ended, and the limit holds. */
  lemma TotalsAddUp(ds: seq<Datagram>, limit: nat)
    requires limit >= 1
    ensures var t := Run(ds, limit);
      && |t.order| <= limit && (forall k :: k in t.order <==> k in t.states) && Distinct(t.order)
      && t.totalLost == Sum(t.order, t.states, false) + GoneSum(t.gone, false)
      && t.totalLate == Sum(t.order, t.states, true) + GoneSum(t.gone, true)
      && t.evicted == Forgotten(t.gone)
  {
    RunInv(ds, limit);
    hide Accounted, ByRecency, Run, Sum;
  }

  /** A packet of a new session that finds the tracker full costs exactly the session not heard of for longest. */
  lemma ForgetsTheLongestSilent(ds: seq<Datagram>, d: Datagram, limit: nat)
    requires limit >= 1 && |Run(ds, limit).order| == limit && KeyOf(d.packet) !in Run(ds, limit).states
    ensures var t, u := Run(ds, limit), Run(ds + [d], limit);
      var victim := t.order[0];
      && victim in t.states && victim in t.last && victim !in u.states && u.evicted == t.evicted + 1
      && (forall k :: k in t.states && k != victim ==>
        k in u.states && u.states[k] == t.states[k] && k in t.last && t.last[victim] < t.last[k])
  {
    RunInv(ds, limit);
    assert (ds + [d])[..|ds|] == ds;
    hide Inv, Observed;
    ForgetsTheFront(Run(ds, limit), d, limit);
  }

  lemma ForgetsTheFront(t: Tracker, d: Datagram, limit: nat)
    requires Inv(t, limit) && limit >= 1 && |t.order| == limit && KeyOf(d.packet) !in t.states
    ensures var u, victim := Observed(t, d, limit), t.order[0];
      && victim in t.states && victim in t.last && victim !in u.states && u.evicted == t.evicted + 1
      && (forall k :: k in t.states && k != victim ==>
        k in u.states && u.states[k] == t.states[k] && k in t.last && t.last[victim] < t.last[k])
  {
    hide Inv, Midway, Listed, Settled, SettledBut, Evicted, Ended, Without;
    var key, victim := KeyOf(d.packet), t.order[0];
    InvParts(t, limit);
    FrontIsTracked(t);
    FrontIsOldest(t);
    TakenUpMidway(t, d, limit);
    AddedMidway(t, key, d.packet.seqNo);
    AddedOrder(t, key, d.packet.seqNo);
    EvictsOne(Added(t, key, d.packet.seqNo), limit);
    var t1 := TakenUp(t, d, limit);
    assert t1 == Dropped(Added(t, key, d.packet.seqNo), victim, true);
    EndedOthers(t1, d);
  }

  /** A packet leaves the other sessions and the count of forgotten ones alone. */
  lemma EndedOthers(t: Tracker, d: Datagram)
    requires KeyOf(d.packet) in t.states && KeyOf(d.packet) in t.lives
    ensures var u := Ended(t, d);
      && u.evicted == t.evicted
      && (forall k :: k != KeyOf(d.packet) ==> (k in u.states <==> k in t.states))
      && (forall k :: k in t.states && k != KeyOf(d.packet) ==> u.states[k] == t.states[k])
  {
    hide Without, Counted;
  }

  lemma FrontIsOldest(t: Tracker)
    requires Midway(t) && t.order != []
    ensures t.order[0] in t.last
    ensures forall k :: k in t.states && k != t.order[0] ==> k in t.last && t.last[t.order[0]] < t.last[k]
  {
    hide Balanced, Accounted;
    forall k | k in t.states && k != t.order[0] ensures k in t.last && t.last[t.order[0]] < t.last[k] {
      var i :| 0 <= i < |t.order| && t.order[i] == k;
    }
  }

  lemma EvictsOne(t: Tracker, limit: nat)
    requires Midway(t) && |t.order| == limit + 1
    ensures t.order[0] in t.states && Evicted(t, limit) == Dropped(t, t.order[0], true)
  {
    FrontIsTracked(t);
    DroppedMidway(t, t.order[0], true);
    hide Midway, Without;
  }

  /** Nothing is forgotten while there is room. */
  lemma RoomForgetsNothing(ds: seq<Datagram>, d: Datagram, limit: nat)
    requires limit >= 1 && (|Run(ds, limit).order| < limit || KeyOf(d.packet) in Run(ds, limit).states)
    ensures Run(ds + [d], limit).evicted == Run(ds, limit).evicted
  {
    RunInv(ds, limit);
    assert (ds + [d])[..|ds|] == ds;
    hide Inv, Observed;
    KeepsAll(Run(ds, limit), d, limit);
  }

  lemma KeepsAll(t: Tracker, d: Datagram, limit: nat)
    requires Inv(t, limit) && limit >= 1 && (|t.order| < limit || KeyOf(d.packet) in t.states)
    ensures Observed(t, d, limit).evicted == t.evicted
  {
    hide Inv, Midway, SettledBut, Ended;
    TakenUpMidway(t, d, limit);
    EndedOthers(TakenUp(t, d, limit), d);
  }
}

module SeqTracking {
  import opened Prelude
  import opened Packets
  import opened SeqLedgers
  import opened SeqTrackers

  /** `SeqTracker`: the dictionary as its order and its values, the totals, and the history as ghost fields. */
  class SeqTracker {
    const maxSessions: nat
    var order: seq<Key>
    var states: map<Key, SeqState>
    var totalLost: int
    var totalLate: int
    var evicted: int
    ghost var lives: map<Key, seq<Arrival>>
    ghost var last: map<Key, nat>
    ghost var steps: nat
    ghost var gone: seq<Gone>

    ghost function State(): Tracker
      reads this
    {
      Tracker(order, states, totalLost, totalLate, evicted, lives, last, steps, gone)
    }

    ghost predicate Valid()
      reads this
    {
      maxSessions >= 1 && Inv(State(), maxSessions)
    }

    constructor (limit: nat)
      requires limit >= 1
      ensures Valid() && maxSessions == limit && State() == Initial()
    {
      hide Inv;
      maxSessions := limit;
      order, states, totalLost, totalLate, evicted := [], map[], 0, 0, 0;
      lives, last, steps, gone := map[], map[], 0, [];
      new;
      InitialInv(limit);
    }

    /** Removes a session from the dictionary. */
    method Delete(key: Key, ghost forgotten: bool)
      requires key in states && key in lives && key in last
      modifies this`order, this`states, this`lives, this`last, this`gone
      ensures State() == Dropped(old(State()), key, forgotten).(evicted := evicted)
    {
      gone := gone + [Gone(key, states[key], forgotten)];
      order := Without(order, key);
      states, lives, last := states - {key}, lives - {key}, last - {key};
    }

    /** Forgets the sessions at the front while there are too many. */
    method MakeRoom()
      requires Midway(State())
      modifies this`order, this`states, this`evicted, this`lives, this`last, this`gone
      ensures State() == Evicted(old(State()), maxSessions)
    {
      hide Midway, Without;
      ghost var start := State();
      while |order| > maxSessions
        invariant Midway(State()) && Evicted(State(), maxSessions) == Evicted(start, maxSessions)
        decreases |order|
      {
        ghost var before := State();
        FrontIsTracked(before);
        TrackedKeys(before, order[0]);
        DroppedMidway(before, order[0], true);
        Delete(order[0], true);
        evicted := evicted + 1;
        assert State() == Dropped(before, before.order[0], true);
      }
    }

    /** Tracks a session from this packet on. */
    method TakeUp(d: Datagram)
      requires Valid() && (d.packet.tagId, d.packet.bootId) !in states
      modifies this`order, this`states, this`evicted, this`lives, this`last, this`gone
      ensures State() == TakenUp(old(State()), d, maxSessions)
    {
      hide Inv, Midway, Evicted, Listed, Settled;
      ghost var start := State();
      var key := (d.packet.tagId, d.packet.bootId);
      InvParts(start, maxSessions);
      AddedMidway(start, key, d.packet.seqNo);
      states := states[key := SeqState(d.packet.seqNo, 0, 0, 0, 0)];
      order, lives, last := order + [key], lives[key := []], last[key := steps];
      assert State() == Added(start, key, d.packet.seqNo);
      MakeRoom();
    }

    /** Counts a packet of a tracked session. */
    method Count(d: Datagram) returns (newLost: int)
      requires (d.packet.tagId, d.packet.bootId) in states && (d.packet.tagId, d.packet.bootId) in lives
      modifies this`states, this`totalLost, this`totalLate, this`lives
      ensures State() == CountedIn(old(State()), d)
      ensures newLost == totalLost - old(totalLost) && 0 <= newLost < HALF
    {
      var key := (d.packet.tagId, d.packet.bootId);
      var count := |d.packet.cycles|;
      var state := states[key];
      newLost := 0;
      var gap := Mask(d.packet.seqNo - state.nextSeq);
      if gap < HALF {
        newLost := gap;
        state := state.(lost := state.lost + gap);
        totalLost := totalLost + gap;
        state := state.(nextSeq := Mask(d.packet.seqNo + count));
      } else {
        state := state.(late := state.late + count);
        totalLate := totalLate + count;
      }
      state := state.(received := state.received + count, lastSeen := d.at);
      states := states[key := state];
      lives := lives[key := lives[key] + [ArrivalOf(d)]];
    }

    /** `observe`: counts the packet, and says how many numbers are newly missing. */
    method Observe(d: Datagram) returns (newLost: int)
      requires Valid()
      modifies this
      ensures Valid() && State() == Observed(old(State()), d, maxSessions)
      ensures newLost == totalLost - old(totalLost) && 0 <= newLost < HALF
    {
      hide Inv, Midway, Without, Evicted, Listed, SettledBut, Added, CountedIn;
      ghost var start := State();
      ObservedKeepsInv(start, d, maxSessions);
      TakenUpMidway(start, d, maxSessions);
      TotalsKept(start, d, maxSessions);
      var key := (d.packet.tagId, d.packet.bootId);
      if key !in states {
        TakeUp(d);
      }
      ghost var taken := State();
      assert taken == TakenUp(start, d, maxSessions);
      newLost := Count(d);
      CountedKept(taken, d);
      if d.packet.Last() {
        Delete(key, false);
      } else {
        order := Without(order, key) + [key];
        last := last[key := steps];
      }
      assert State() == Ended(taken, d);
      steps := steps + 1;
    }
  }

  lemma CountedKept(t: Tracker, d: Datagram)
    requires Midway(t) && KeyOf(d.packet) in t.states && KeyOf(d.packet) in t.lives
    ensures var u := CountedIn(t, d);
      KeyOf(d.packet) in u.states && KeyOf(d.packet) in u.lives && KeyOf(d.packet) in u.last && u.evicted == t.evicted
  {
    TrackedKeys(t, KeyOf(d.packet));
    hide Midway, Counted;
  }

  lemma TrackedKeys(t: Tracker, key: Key)
    requires Midway(t) && key in t.states
    ensures key in t.lives && key in t.last
  {
    hide Balanced, Accounted, ByRecency;
  }

  lemma {:induction false} EvictedTotals(t: Tracker, limit: nat)
    ensures Evicted(t, limit).totalLost == t.totalLost
    decreases |t.order|
  {
    hide Without;
    if !(|t.order| <= limit || t.order[0] !in t.states) {
      WithoutShorter(t.order, t.order[0]);
      EvictedTotals(Dropped(t, t.order[0], true), limit);
    }
  }

  /** Taking a session up changes no total. */
  lemma TotalsKept(t: Tracker, d: Datagram, limit: nat)
    ensures TakenUp(t, d, limit).totalLost == t.totalLost
  {
    EvictedTotals(Added(t, KeyOf(d.packet), d.packet.seqNo), limit);
  }
}
