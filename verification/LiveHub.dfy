/** The live hub as the objects of live/hub.py, each method proved to do what `HubStates` says. */
module LiveHubs {
  import opened Prelude
  import opened Packets
  import opened LiveTypes
  import opened LiveSessions
  import opened Queues
  import opened Subscribers
  import opened HubStates
  import opened HubSteps

  class LiveSession {
    const tagId: int
    const bootId: int
    var sessionId: Option<int>
    var configRev: Option<int>
    var lastSeen: real
    var active: bool
    var cycles: seq<LiveCycle>
    var pending: seq<LiveCycle>
    var lastSeq: Option<int>
    var lastTRaw: int
    var lastSeqN: int
    var lastTN: int
    var rangeCount: int
    ghost var accepted: seq<LiveCycle>
    ghost var batches: seq<(int, int)>
    ghost var unsent: set<int>
    ghost const since: nat

    ghost function State(): Session
      reads this
    {
      Session(tagId, bootId, sessionId, configRev, lastSeen, active, cycles, pending,
              lastSeq, lastTRaw, lastSeqN, lastTN, rangeCount, accepted, batches, unsent, since)
    }

    constructor (tagId: int, bootId: int, sessionId: Option<int>, configRev: Option<int>, now: real, ghost since: nat)
      ensures State() == NewSession(tagId, bootId, sessionId, configRev, now, since)
    {
      this.tagId, this.bootId, this.sessionId, this.configRev, lastSeen := tagId, bootId, sessionId, configRev, now;
      active, cycles, pending := true, [], [];
      lastSeq, lastTRaw, lastSeqN, lastTN, rangeCount := None, 0, 0, 0, 0;
      accepted, batches, unsent := [], [], {};
      this.since := since;
    }

    function Identity(): (id: LiveTypes.Identity)
      reads this
      ensures id == IdentityOf(State())
    {
      LiveTypes.Identity(sessionId, tagId, bootId)
    }

    method SetLastSeen(now: real)
      modifies this`lastSeen
      ensures State() == old(State()).(lastSeen := now)
    {
      lastSeen := now;
    }

    method Inform(sessionId: int, configRev: Option<int>)
      modifies this`sessionId, this`configRev
      ensures State() == old(State()).(sessionId := Some(sessionId), configRev := configRev)
    {
      this.sessionId := Some(sessionId);
      this.configRev := configRev;
    }

    method SetActive(active: bool)
      modifies this`active
      ensures State() == old(State()).(active := active)
    {
      this.active := active;
    }

    /** What was pending is on its way. */
    method ClearPending()
      modifies this`pending, this`batches
      ensures State() == Flushed(old(State()))
    {
      batches := batches + [(|accepted| - |pending|, |accepted|)];
      pending := [];
    }

    /** Unrolls the cycle's counters against the last accepted one. */
    method Unroll(cycle: CycleRecord) returns (live: LiveCycle)
      ensures live == Unrolled(State(), cycle) && live.record == cycle
    {
      if lastSeq.None? {
        return LiveCycle(cycle, cycle.tTagMs, cycle.seqNo, None);
      }
      var step := Mask(cycle.seqNo - lastSeq.value);
      var tN := lastTN + TStep(cycle.tTagMs, lastTRaw);
      return LiveCycle(cycle, tN, lastSeqN + step, if step == 1 then Some(tN - lastTN) else None);
    }

    /** One turn of the loop in `publish`: buffers the cycle, or refuses it for being late. */
    method Take(cycle: CycleRecord) returns (taken: bool)
      modifies this
      ensures taken == !Late(old(State()), cycle)
      ensures State() == Accept(old(State()), cycle)
    {
      if lastSeq.Some? && !SeqAdvances(cycle.seqNo, lastSeq.value) {
        return false;
      }
      hide Unrolled, SeqAdvances;
      var live := Unroll(cycle);
      MoveCursor(live);
      Buffer(live);
      return true;
    }

    method MoveCursor(live: LiveCycle)
      modifies this`lastSeq, this`lastTRaw, this`lastSeqN, this`lastTN
      ensures lastSeq == Some(live.record.seqNo) && lastTRaw == live.record.tTagMs
      ensures lastSeqN == live.seqN && lastTN == live.tMs
    {
      lastSeq, lastTRaw := Some(live.record.seqNo), live.record.tTagMs;
      lastSeqN, lastTN := live.seqN, live.tMs;
    }

    method Buffer(live: LiveCycle)
      modifies this`cycles, this`rangeCount, this`pending, this`accepted
      ensures cycles == old(cycles) + [live] && pending == old(pending) + [live]
      ensures rangeCount == old(rangeCount) + |live.record.ranges|
      ensures accepted == old(accepted) + [live]
    {
      cycles := cycles + [live];
      rangeCount := rangeCount + |live.record.ranges|;
      pending := pending + [live];
      accepted := accepted + [live];
    }

    /** Forgets the oldest cycle and says how many ranges went with it. */
    method PopOldest() returns (dropped: nat)
      requires cycles != []
      modifies this
      ensures State() == LiveSessions.PopOldest(old(State()))
      ensures dropped == |old(cycles)[0].record.ranges|
    {
      dropped := |cycles[0].record.ranges|;
      cycles := cycles[1..];
      rangeCount := rangeCount - dropped;
      if |pending| > |cycles| {
        unsent := unsent + {|accepted| - |pending|};
        pending := pending[1..];
      }
    }

    /** `_trim`; the count of cycles over the limits goes to the statistics. */
    method Trim(cfg: Config) returns (overflow: nat)
      modifies this
      ensures State() == Trimmed(cfg, old(State()))
      ensures overflow == |old(State()).cycles| - |TrimCount(old(State()), cfg.maxBufferCycles, cfg.maxBufferRanges).cycles|
      ensures Sound(old(State())) ==>
        && FewestDropped(State(), old(State()), cfg.maxBufferCycles, cfg.maxBufferRanges, cfg.retentionMs)
        && CountedOut(old(State()).cycles, overflow, cfg.maxBufferCycles, cfg.maxBufferRanges)
    {
      hide Sound, FewestDropped, CountedOut;
      if Sound(State()) {
        TrimDropsFewest(State(), cfg.maxBufferCycles, cfg.maxBufferRanges, cfg.retentionMs);
        TrimCountsFewest(State(), cfg.maxBufferCycles, cfg.maxBufferRanges);
      }
      ghost var counted := TrimCount(State(), cfg.maxBufferCycles, cfg.maxBufferRanges);
      overflow := 0;
      while cycles != [] && (|cycles| > cfg.maxBufferCycles || rangeCount > cfg.maxBufferRanges)
        invariant TrimCount(State(), cfg.maxBufferCycles, cfg.maxBufferRanges) == counted
        invariant overflow == |old(cycles)| - |cycles|
        decreases |cycles|
      {
        var _ := PopOldest();
        overflow := overflow + 1;
      }
      if cycles != [] {
        var latest := cycles[|cycles| - 1].tMs;
        while |cycles| > 1 && latest - cycles[0].tMs > cfg.retentionMs
          invariant TrimAge(State(), latest, cfg.retentionMs) == TrimAge(counted, latest, cfg.retentionMs)
          decreases |cycles|
        {
          var _ := PopOldest();
        }
      }
    }
  }

  class LiveHub {
    const cfg: Config
    var order: seq<int>
    var sessions: map<int, LiveSession>
    var endedBoots: map<int, seq<int>>
    var helloOrder: seq<(int, int)>
    var hello: map<(int, int), Hello>
    var stats: Stats
    var subscribers: map<nat, Subscriber>
    ghost var joined: map<nat, Joined>
    ghost var log: seq<Sent>
    ghost var past: map<int, seq<Past>>

    ghost function Sessions(): map<int, Session>
      reads this`sessions, sessions.Values
    {
      map t | t in sessions :: sessions[t].State()
    }

    ghost function QueueStates(): map<nat, Queue>
      reads this`subscribers, subscribers.Values
    {
      map c | c in subscribers :: subscribers[c].State()
    }

    ghost function State(): Hub
      reads this, sessions.Values, subscribers.Values
    {
      Hub(order, Sessions(), endedBoots, helloOrder, hello, stats, QueueStates(), joined, log, past)
    }

    ghost predicate SubscribersValid()
      reads this`subscribers, subscribers.Values
    {
      forall c :: c in subscribers ==> subscribers[c].Valid() && subscribers[c].conn == c
    }

    /** Sessions are told apart by their tag, connections by their number. */
    ghost predicate Valid()
      reads this, sessions.Values, subscribers.Values
    {
      Tagged(order, Sessions()) && SubscribersValid()
    }

    constructor (cfg: Config)
      ensures Valid() && State() == EmptyHub && this.cfg == cfg
    {
      this.cfg := cfg;
      order, sessions, endedBoots := [], map[], map[];
      helloOrder, hello := [], map[];
      stats := Stats(0, 0, 0, 0);
      subscribers := map[];
      joined, log, past := map[], [], map[];
    }

    /** One subscriber's share of a broadcast. */
    method PushTo(subscriber: Subscriber, tagId: int, frame: Frame)
      requires subscriber.Valid()
      modifies subscriber
      ensures subscriber.Valid() && subscriber.State() == Deliver(old(subscriber.State()), tagId, frame)
    {
      if subscriber.tagId == Some(tagId) {
        subscriber.Push(frame);
      }
    }

    lemma QueueAt(c: nat)
      requires c in subscribers
      ensures c in QueueStates() && QueueStates()[c] == subscribers[c].State()
    {}

    lemma QueueKeys()
      ensures QueueStates().Keys == subscribers.Keys
    {}

    /** Only connection `c` has changed. */
    twostate lemma OneSubscriber(c: nat)
      requires subscribers == old(subscribers) && c in subscribers && old(SubscribersValid())
      requires subscribers[c].Valid()
      requires forall d :: d in subscribers && d != c ==> unchanged(subscribers[d])
      ensures QueueStates() == old(QueueStates())[c := subscribers[c].State()]
      ensures SubscribersValid()
    {}

    method PushToAll(tagId: int, frame: Frame)
      requires SubscribersValid()
      modifies subscribers.Values
      ensures SubscribersValid()
      ensures QueueStates() == Told(old(QueueStates()), {}, tagId, frame)
    {
      hide Deliver, Told, LiveHub.QueueStates, LiveHub.SubscribersValid, Subscriber.State;
      var todo := subscribers.Keys;
      QueueKeys();
      ToldNone(QueueStates(), tagId, frame);
      while todo != {}
        invariant todo <= subscribers.Keys
        invariant SubscribersValid()
        invariant QueueStates() == Told(old(QueueStates()), todo, tagId, frame)
      {
        var c :| c in todo;
        label before:
        QueueAt(c);
        SubscribersApart();
        PushTo(subscribers[c], tagId, frame);
        OneSubscriber@before(c);
        ToldOne(old(QueueStates()), todo, c, tagId, frame);
        todo := todo - {c};
      }
    }

    lemma SubscribersApart()
      requires SubscribersValid()
      ensures forall c :: c in subscribers ==> subscribers[c].Valid() && subscribers[c].conn == c
    {}

    method Broadcast(tagId: int, frame: Frame)
      requires Valid()
      modifies this`log, subscribers.Values
      ensures Valid()
      ensures State() == HubStates.Broadcast(old(State()), tagId, frame)
    {
      hide Deliver, Tagged, LiveHub.Sessions, LiveHub.QueueStates, LiveHub.SubscribersValid;
      PushToAll(tagId, frame);
      ToldAll(old(QueueStates()), tagId, frame);
      log := log + [Sent(tagId, frame)];
    }

    lemma SessionsApart()
      requires Valid()
      ensures forall u :: u in sessions ==> sessions[u].tagId == u && u in order
    {
      assert forall u :: u in sessions ==> u in Sessions() && Sessions()[u] == sessions[u].State();
    }

    lemma SessionAt(t: int)
      requires t in sessions
      ensures t in Sessions() && Sessions()[t] == sessions[t].State()
    {}

    /** Only session `t` has changed. */
    twostate lemma OneSession(t: int)
      requires sessions == old(sessions) && order == old(order) && t in sessions && old(Tagged(order, Sessions()))
      requires forall u :: u in sessions && u != t ==> sessions[u].State() == old(sessions[u].State())
      ensures Sessions() == old(Sessions())[t := sessions[t].State()]
      ensures Tagged(order, Sessions())
    {
      assert old(Sessions())[t].tagId == t;
    }

    method Flush(t: int)
      requires Valid() && t in sessions
      modifies this`log, sessions[t], subscribers.Values
      ensures Valid() && State() == HubStates.Flush(old(State()), t)
    {
      hide Deliver, Tagged, Flushed, LiveHub.QueueStates, LiveHub.SubscribersValid, LiveHub.Sessions;
      SessionsApart();
      SessionAt(t);
      var session := sessions[t];
      if session.pending == [] {
        return;
      }
      var frame := Append(session.Identity(), session.pending);
      session.ClearPending();
      OneSession(t);
      Broadcast(t, frame);
    }

    method Close(t: int, reason: EndReason)
      requires Valid() && t in sessions
      modifies this`log, sessions[t], subscribers.Values
      ensures Valid() && State() == HubStates.Close(old(State()), t, reason)
    {
      hide Deliver, Tagged, LiveHub.QueueStates, LiveHub.SubscribersValid, LiveHub.Sessions;
      SessionsApart();
      SessionAt(t);
      var session := sessions[t];
      if session.active {
        session.SetActive(false);
        OneSession(t);
        Broadcast(t, SessionEnd(session.Identity(), reason));
      }
    }

    method End(t: int, reason: EndReason)
      requires Valid() && t in sessions
      modifies this`log, this`endedBoots, sessions[t], subscribers.Values
      ensures Valid() && State() == HubStates.End(old(State()), t, reason)
    {
      hide HubStates.Flush, HubStates.Close, LiveHub.QueueStates, LiveHub.SubscribersValid, LiveHub.Sessions, Tagged;
      SessionAt(t);
      Flush(t);
      if !reason.Timeout? {
        var ended := if t in endedBoots then endedBoots[t] else [];
        endedBoots := endedBoots[t := LastOf(ended + [sessions[t].bootId], ENDED_BOOTS_PER_TAG)];
      }
      Close(t, reason);
    }

    method StartFrameOf(t: int) returns (f: Frame)
      requires t in sessions
      ensures f == StartFrame(sessions[t].State())
    {
      f := SessionStart(sessions[t].Identity(), sessions[t].configRev);
    }

    method OpenSession(t: int, bootId: int, now: real)
      requires Valid()
      modifies this`order, this`sessions, this`past
      ensures Valid() && State() == Register(old(State()), Opening(old(State()), t, bootId, now))
      ensures t in sessions && fresh(sessions[t]) && sessions == old(sessions)[t := sessions[t]]
    {
      hide Tagged, LiveHub.QueueStates, LiveHub.SubscribersValid, LiveHub.Sessions, LiveSession.State, Sound;
      var known := (t, bootId) in hello;
      var sessionId := if known then Some(hello[(t, bootId)].sessionId) else None;
      var configRev := if known then hello[(t, bootId)].configRev else None;
      SessionKeys();
      ghost var before, opening := State(), Opening(State(), t, bootId, now);
      var session := new LiveSession(t, bootId, sessionId, configRev, now, |log|);
      if t !in sessions {
        order := order + [t];
      } else {
        past := past[t := PastOf(before, t) + [Past(Sessions()[t], |log|)]];
      }
      sessions := sessions[t := session];
      NewSessionAt(t, session);
      assert State() == Register(before, opening);
    }

    /** A session object has been put under tag `t`. */
    twostate lemma NewSessionAt(t: int, new session: LiveSession)
      requires t in sessions && sessions == old(sessions)[t := session]
      requires forall u :: u in old(sessions) ==> old(sessions[u]).State() == old(sessions[u].State())
      ensures Sessions() == old(Sessions())[t := session.State()]
    {
      hide LiveSession.State;
      forall u | u in old(sessions) && u != t ensures Sessions()[u] == old(Sessions())[u] {
        assert sessions[u] == old(sessions[u]);
      }
    }

    method Start(t: int, bootId: int, now: real)
      requires Valid()
      modifies this`log, this`order, this`sessions, this`past, subscribers.Values
      ensures Valid() && State() == HubStates.Start(old(State()), t, bootId, now)
      ensures t in sessions && fresh(sessions[t]) && sessions == old(sessions)[t := sessions[t]]
    {
      hide Deliver, Tagged, Opening, LiveHub.Sessions, LiveHub.QueueStates, LiveHub.SubscribersValid, LiveSession.State;
      OpenSession(t, bootId, now);
      SessionAt(t);
      var frame := StartFrameOf(t);
      Broadcast(t, frame);
    }

    method Resume(t: int)
      requires Valid() && t in sessions
      modifies this`log, sessions[t], subscribers.Values
      ensures Valid() && State() == HubStates.Resume(old(State()), t)
    {
      hide Deliver, Tagged, LiveHub.QueueStates, LiveHub.SubscribersValid, LiveHub.Sessions, LiveSession.State;
      SessionsApart();
      SessionAt(t);
      sessions[t].SetActive(true);
      OneSession(t);
      var frame := StartFrameOf(t);
      Broadcast(t, frame);
    }

    /** The first half of `publish`: finds, opens or resumes the packet's session. */
    method SessionFor(p: TelemetryPacket, now: real)
      requires Valid()
      modifies this`log, this`order, this`sessions, this`past, this`endedBoots, sessions.Values, subscribers.Values
      ensures Valid() && State() == HubStates.SessionFor(old(State()), p, now)
      ensures p.tagId in sessions && fresh(sessions.Values - old(sessions.Values))
    {
      hide HubStates.Start, HubStates.End, HubStates.Resume, LiveHub.QueueStates, LiveHub.SubscribersValid, LiveHub.Sessions, Tagged;
      var t := p.tagId;
      if t !in sessions {
        SessionKeys();
        Start(t, p.bootId, now);
      } else {
        SessionAt(t);
        if sessions[t].bootId != p.bootId {
          End(t, Replaced);
          Start(t, p.bootId, now);
        } else if !sessions[t].active {
          Resume(t);
        }
      }
    }

    lemma SessionKeys()
      ensures Sessions().Keys == sessions.Keys
    {}

    /** The loop of `publish` over the packet's cycles, and the trimming after it. */
    method TakeCycles(p: TelemetryPacket)
      requires Valid() && p.tagId in sessions
      modifies this`stats, sessions[p.tagId]
      ensures Valid() && State() == HubStates.TakeCycles(cfg, old(State()), p)
    {
      hide Trimmed, TrimCount, AcceptAll, Tagged, LiveHub.QueueStates, LiveHub.SubscribersValid, LiveHub.Sessions, LiveSession.State;
      SessionsApart();
      SessionAt(p.tagId);
      var session := sessions[p.tagId];
      TakeEach(session, p.cycles);
      var overflow := session.Trim(cfg);
      stats := stats.(overflow := stats.overflow + overflow);
      OneSession(p.tagId);
    }

    method TakeEach(session: LiveSession, cs: seq<CycleRecord>)
      modifies this`stats, session
      ensures session.State() == AcceptAll(old(session.State()), cs)
      ensures var accepted := |session.State().accepted| - |old(session.State()).accepted|;
        stats == old(stats).(published := old(stats).published + accepted, late := old(stats).late + |cs| - accepted)
    {
      hide LiveSession.State, Accept, Late;
      for i := 0 to |cs|
        invariant session.State() == AcceptAll(old(session.State()), cs[..i])
        invariant var accepted := |session.State().accepted| - |old(session.State()).accepted|;
          stats == old(stats).(published := old(stats).published + accepted, late := old(stats).late + i - accepted)
      {
        assert cs[..i + 1][..i] == cs[..i];
        AcceptedGrows(session.State(), cs[i]);
        var taken := session.Take(cs[i]);
        if taken {
          stats := stats.(published := stats.published + 1);
        } else {
          stats := stats.(late := stats.late + 1);
        }
      }
      assert cs[..|cs|] == cs;
    }

    /** `max` over the sessions that still buffer something. */
    method PickVictim() returns (v: Option<int>)
      requires Valid()
      ensures v == Victim(order, Sessions())
    {
      hide Tagged, Victim, Heavier, LiveHub.Sessions, LiveHub.SubscribersValid, LiveSession.State;
      VictimStep(Sessions(), [], 0);
      DistinctOrder();
      v := None;
      var i := 0;
      while i < |order|
        invariant i <= |order|
        invariant v == Victim(order[..i], Sessions())
      {
        var t := order[i];
        VictimStep(Sessions(), order[..i], t);
        assert order[..i + 1] == order[..i] + [t];
        SessionKeys();
        SessionAt(t);
        if v.Some? {
          SessionAt(v.value);
        }
        if HasCycles(sessions[t]) && (v.None? || IsHeavier(sessions[t], sessions[v.value])) {
          v := Some(t);
        }
        i := i + 1;
      }
      assert order[..|order|] == order;
    }

    static predicate HasCycles(s: LiveSession)
      reads s
      ensures HasCycles(s) <==> s.State().cycles != []
    {
      s.cycles != []
    }

    static predicate IsHeavier(a: LiveSession, b: LiveSession)
      reads a, b
      ensures IsHeavier(a, b) <==> Heavier(a.State(), b.State())
    {
      if a.active == b.active then a.rangeCount > b.rangeCount else !a.active
    }

    method SumRanges() returns (total: int)
      requires Valid()
      ensures total == TotalRanges(order, Sessions())
    {
      hide LiveHub.Sessions;
      total := 0;
      for i := 0 to |order|
        invariant total == TotalRanges(order[..i], Sessions())
      {
        assert order[..i + 1][..i] == order[..i];
        SessionKeys();
        SessionAt(order[i]);
        total := total + sessions[order[i]].rangeCount;
      }
      assert order[..|order|] == order;
    }

    method PopFrom(t: int) returns (dropped: nat)
      requires Valid() && t in sessions && sessions[t].cycles != []
      modifies sessions[t]
      ensures Valid()
      ensures t in old(Sessions()) && old(Sessions())[t].cycles != []
      ensures Sessions() == old(Sessions())[t := LiveSessions.PopOldest(old(Sessions())[t])]
      ensures dropped == |old(Sessions())[t].cycles[0].record.ranges|
    {
      hide Tagged, LiveHub.Sessions, LiveHub.SubscribersValid;
      SessionsApart();
      SessionAt(t);
      dropped := sessions[t].PopOldest();
      OneSession(t);
    }

    method EvictFrom(t: int) returns (dropped: nat)
      requires Valid() && t in sessions && sessions[t].cycles != []
      modifies this`stats, sessions[t]
      ensures Valid()
      ensures t in old(Sessions()) && old(Sessions())[t].cycles != []
      ensures Sessions() == old(Sessions())[t := LiveSessions.PopOldest(old(Sessions())[t])]
      ensures dropped == |old(Sessions())[t].cycles[0].record.ranges|
      ensures stats == old(stats).(overflow := old(stats).overflow + 1)
    {
      hide Tagged, LiveHub.Sessions, LiveHub.SubscribersValid, LiveSessions.PopOldest;
      dropped := PopFrom(t);
      stats := stats.(overflow := stats.overflow + 1);
    }

    /** One turn of the eviction loop: what it dropped, or nothing when no session buffers any cycle. */
    method EvictHeaviest() returns (dropped: Option<nat>)
      requires Valid()
      modifies this`stats, sessions.Values
      ensures Valid()
      ensures var v := Victim(order, old(Sessions()));
        && dropped.Some? == v.Some?
        && (v.None? ==> Sessions() == old(Sessions()) && stats == old(stats))
        && (v.Some? ==>
              && dropped.value == |old(Sessions())[v.value].cycles[0].record.ranges|
              && Sessions() == old(Sessions())[v.value := LiveSessions.PopOldest(old(Sessions())[v.value])]
              && stats == old(stats).(overflow := old(stats).overflow + 1))
    {
      hide Tagged, Victim, LiveSessions.PopOldest, LiveSession.State, LiveHub.Sessions, LiveHub.SubscribersValid;
      var victim := PickVictim();
      if victim.None? {
        return None;
      }
      VictimHasCycles(victim.value);
      var n := EvictFrom(victim.value);
      return Some(n);
    }

    /** `_enforce_total_limit`. */
    method EnforceTotalLimit()
      requires Valid()
      modifies this`stats, sessions.Values
      ensures Valid() && State() == EnforceTotal(cfg, old(State()))
    {
      hide Tagged, Distinct, Enforce, Victim, TotalRanges, TotalCycles, LiveSessions.PopOldest, LiveSession.State,
        LiveHub.Sessions, LiveHub.SubscribersValid, LiveHub.QueueStates;
      DistinctOrder();
      ghost var before, cap := Sessions(), cfg.maxTotalRanges;
      var total := SumRanges();
      var more := true;
      while more && total > cfg.maxTotalRanges
        invariant Valid()
        invariant total == TotalRanges(order, Sessions())
        invariant Enforce(order, Sessions(), cap) == Enforce(order, before, cap)
        invariant !more ==> Sessions() == Enforce(order, before, cap)
        invariant stats == old(stats).(overflow := old(stats).overflow
                                         + TotalCycles(order, before) - TotalCycles(order, Sessions()))
        decreases more, TotalCycles(order, Sessions())
      {
        EnforceStep(order, Sessions(), cap);
        var dropped := EvictHeaviest();
        match dropped
        case None => more := false;
        case Some(n) => total := total - n;
      }
      EnforceStep(order, Sessions(), cap);
    }

    method Touch(t: int, now: real)
      requires Valid() && t in sessions
      modifies sessions[t]
      ensures Valid() && State() == HubStates.Touch(old(State()), t, now)
    {
      hide Tagged, LiveHub.Sessions, LiveHub.QueueStates, LiveHub.SubscribersValid, LiveSession.State;
      SessionsApart();
      SessionAt(t);
      sessions[t].SetLastSeen(now);
      OneSession(t);
    }

    method Absorb(p: TelemetryPacket, now: real)
      requires Valid() && p.tagId in sessions
      modifies this`log, this`endedBoots, this`stats, sessions.Values, subscribers.Values
      ensures Valid() && State() == HubStates.Absorb(cfg, old(State()), p, now)
    {
      hide Tagged, HubStates.TakeCycles, EnforceTotal, HubStates.Touch, HubStates.End,
        LiveHub.Sessions, LiveHub.QueueStates, LiveHub.SubscribersValid, LiveSession.State;
      TakeCycles(p);
      EnforceTotalLimit();
      Touch(p.tagId, now);
      if p.Last() {
        End(p.tagId, TagEnd);
      }
    }

    method Publish(p: TelemetryPacket, now: real)
      requires Valid()
      modifies this, sessions.Values, subscribers.Values
      ensures Valid() && State() == HubStates.Publish(cfg, old(State()), p, now)
      ensures subscribers == old(subscribers) && fresh(sessions.Values - old(sessions.Values))
    {
      hide Tagged, HubStates.SessionFor, HubStates.Absorb,
        LiveHub.Sessions, LiveHub.QueueStates, LiveHub.SubscribersValid, LiveSession.State;
      var t := p.tagId;
      if t in endedBoots && p.bootId in endedBoots[t] {
        stats := stats.(stale := stats.stale + |p.cycles|);
        return;
      }
      SessionFor(p, now);
      Absorb(p, now);
    }

    method TickOne(t: int, now: real)
      requires Valid() && t in sessions
      modifies this`log, this`endedBoots, sessions[t], subscribers.Values
      ensures Valid() && State() == HubStates.TickOne(cfg, old(State()), t, now)
    {
      hide Tagged, HubStates.Flush, HubStates.End, LiveHub.Sessions, LiveHub.QueueStates, LiveHub.SubscribersValid;
      Flush(t);
      SessionAt(t);
      var session := sessions[t];
      if session.active && now - session.lastSeen >= cfg.sessionTimeout {
        End(t, Timeout);
      }
    }

    method Tick(now: real)
      requires Valid()
      modifies this`log, this`endedBoots, sessions.Values, subscribers.Values
      ensures Valid() && State() == HubStates.Tick(cfg, old(State()), now)
      ensures TickedWhole(cfg, old(State()), State(), now)
    {
      ghost var before := State();
      hide Tagged, HubStates.TickOne, TickUpTo, TickedWhole, LiveHub.Sessions, LiveHub.QueueStates, LiveHub.SubscribersValid;
      TickUpToNone(cfg, before, now);
      for i := 0 to |order|
        invariant Valid()
        invariant State() == TickUpTo(cfg, before, now, i)
      {
        DistinctOrder();
        SessionKeys();
        TickOne(order[i], now);
        TickUpToNext(cfg, before, now, i);
      }
      TickDoes(cfg, before, now);
    }

    /** `hello` keeps its entries by recency and forgets the oldest. */
    method RememberHello(key: (int, int), info: Hello)
      requires Valid()
      modifies this`helloOrder, this`hello
      ensures Valid() && State() == Remember(old(State()), key, info)
    {
      hide Tagged, LiveHub.Sessions, LiveHub.QueueStates, LiveHub.SubscribersValid;
      hello := hello[key := info];
      helloOrder := Removed(helloOrder, key) + [key];
      while |helloOrder| > HELLO_MEMORY
        invariant Forget(helloOrder, hello) == Forget(Removed(old(helloOrder), key) + [key], old(hello)[key := info])
        decreases |helloOrder|
      {
        hello := hello - {helloOrder[0]};
        helloOrder := helloOrder[1..];
      }
    }

    method NoteHello(t: int, bootId: int, sessionId: int, configRev: Option<int>)
      requires Valid()
      modifies this`log, this`helloOrder, this`hello, sessions.Values, subscribers.Values
      ensures Valid() && State() == HubStates.NoteHello(old(State()), t, bootId, sessionId, configRev)
    {
      hide Tagged, Remember, HubStates.Tell, LiveHub.Sessions, LiveHub.QueueStates, LiveHub.SubscribersValid;
      var key := (t, bootId);
      var rev := if configRev.None? && key in hello then hello[key].configRev else configRev;
      RememberHello(key, Hello(sessionId, rev));
      Tell(t, bootId, sessionId, rev);
    }

    /** The second half of `note_hello`. */
    method Tell(t: int, bootId: int, sessionId: int, rev: Option<int>)
      requires Valid()
      modifies this`log, sessions.Values, subscribers.Values
      ensures Valid() && State() == HubStates.Tell(old(State()), t, bootId, sessionId, rev)
    {
      hide Tagged, Deliver, ToldViewers, LiveHub.Sessions, LiveHub.QueueStates, LiveHub.SubscribersValid;
      SessionKeys();
      if t !in sessions {
        return;
      }
      SessionsApart();
      SessionAt(t);
      if sessions[t].bootId != bootId {
        return;
      }
      var newRev, changed := InformSession(t, sessionId, rev);
      TellViewers(t, newRev, changed);
    }

    method TellViewers(t: int, newRev: bool, changed: bool)
      requires Valid() && t in sessions && t in State().sessions
      modifies this`log, subscribers.Values
      ensures Valid() && State() == ToldViewers(old(State()), t, newRev, changed)
    {
      hide Tagged, Deliver, LiveHub.Sessions, LiveHub.QueueStates, LiveHub.SubscribersValid;
      SessionAt(t);
      if newRev && sessions[t].active {
        var frame := StartFrameOf(t);
        Broadcast(t, frame);
      } else if (newRev || changed) && !sessions[t].active {
        Broadcast(t, SessionInfo(sessions[t].Identity(), sessions[t].configRev));
      }
    }

    method InformSession(t: int, sessionId: int, rev: Option<int>) returns (newRev: bool, changed: bool)
      requires Valid() && t in sessions
      modifies sessions[t]
      ensures Valid() && t in old(Sessions())
      ensures var s := old(Sessions())[t];
        && newRev == (rev.Some? && rev != s.configRev) && changed == (s.sessionId != Some(sessionId))
        && Sessions() == old(Sessions())[t := s.(sessionId := Some(sessionId), configRev := if newRev then rev else s.configRev)]
    {
      hide Tagged, LiveHub.Sessions, LiveHub.SubscribersValid;
      SessionsApart();
      SessionAt(t);
      var session := sessions[t];
      changed := session.sessionId != Some(sessionId);
      newRev := rev.Some? && rev != session.configRev;
      session.Inform(sessionId, if newRev then rev else session.configRev);
      OneSession(t);
    }

    method NoteSession(t: int, bootId: int, sessionId: int)
      requires Valid()
      modifies this`log, sessions.Values, subscribers.Values
      ensures Valid() && State() == HubStates.NoteSession(old(State()), t, bootId, sessionId)
    {
      hide Tagged, Deliver, LiveHub.Sessions, LiveHub.QueueStates, LiveHub.SubscribersValid;
      SessionKeys();
      if t !in sessions {
        return;
      }
      SessionsApart();
      SessionAt(t);
      var session := sessions[t];
      if session.bootId == bootId && session.sessionId.None? {
        session.Inform(sessionId, session.configRev);
        OneSession(t);
        if !session.active {
          Broadcast(t, SessionInfo(session.Identity(), session.configRev));
        }
      }
    }

    method NoteSessions(items: seq<((int, int), int)>)
      requires Valid()
      modifies this`log, sessions.Values, subscribers.Values
      ensures Valid() && State() == HubStates.NoteSessions(old(State()), items)
    {
      hide Tagged, HubStates.NoteSession, LiveHub.Sessions, LiveHub.QueueStates, LiveHub.SubscribersValid;
      ghost var before := State();
      for i := 0 to |items|
        invariant Valid()
        invariant State() == HubStates.NoteSessions(before, items[..i])
      {
        assert items[..i + 1][..i] == items[..i];
        NoteSession(items[i].0.0, items[i].0.1, items[i].1);
      }
      assert items[..|items|] == items;
    }

    method SnapshotFor(t: int, historyMs: int) returns (f: Frame)
      requires Valid()
      ensures f == SnapshotOf(State(), t, historyMs)
    {
      hide Tagged, LiveHub.Sessions, LiveHub.QueueStates, LiveHub.SubscribersValid;
      SessionKeys();
      if t !in sessions {
        return Snapshot(t, None, None, false, historyMs, []);
      }
      SessionAt(t);
      var session := sessions[t];
      var sent := if |session.cycles| >= |session.pending|
        then session.cycles[..|session.cycles| - |session.pending|] else [];
      var latest := if sent == [] then 0 else sent[|sent| - 1].tMs;
      f := Snapshot(t, Some(session.Identity()), session.configRev, session.active, historyMs,
                    Recent(sent, latest, historyMs));
    }

    method Connect(conn: nat)
      requires Valid() && conn !in subscribers
      modifies this`subscribers, this`joined
      ensures Valid() && State() == HubStates.Connect(cfg, old(State()), conn)
      ensures conn in subscribers && fresh(subscribers[conn]) && subscribers == old(subscribers)[conn := subscribers[conn]]
    {
      hide Tagged, LiveHub.Sessions, Subscriber.State, Subscriber.Valid, Queues.Fresh;
      var subscriber := new Subscriber(cfg.subscriberMaxFrames, conn);
      assert forall c :: c in subscribers ==> subscribers[c].State() == old(subscribers[c].State());
      subscribers := subscribers[conn := subscriber];
      joined := joined[conn := Joined(0, Error(""), 0, 0)];
    }

    method Disconnect(conn: nat)
      requires Valid()
      modifies this`subscribers
      ensures Valid() && State() == HubStates.Disconnect(old(State()), conn)
    {
      hide Tagged, LiveHub.Sessions, Subscriber.State, Subscriber.Valid;
      subscribers := subscribers - {conn};
    }

    method Subscribe(conn: nat, t: int, historyMs: int)
      requires Valid() && conn in subscribers
      modifies this`joined, subscribers[conn]
      ensures Valid() && conn in old(QueueStates())
      ensures State() == HubStates.Subscribe(old(State()), conn, t, historyMs)
    {
      hide Tagged, Queues.Reset, SnapshotOf, JoinedNow,
        LiveHub.Sessions, LiveHub.QueueStates, LiveHub.SubscribersValid, Subscriber.State;
      QueueAt(conn);
      SubscribersApart();
      var snapshot := SnapshotFor(t, historyMs);
      joined := joined[conn := JoinedNow(State(), t, historyMs)];
      subscribers[conn].Reset(Some(t), Some(snapshot));
      OneSubscriber(conn);
    }

    method Unsubscribe(conn: nat)
      requires Valid() && conn in subscribers
      modifies subscribers[conn]
      ensures Valid() && conn in old(QueueStates())
      ensures State() == HubStates.Unsubscribe(old(State()), conn)
    {
      hide Tagged, Queues.Reset, LiveHub.Sessions, LiveHub.QueueStates, LiveHub.SubscribersValid, Subscriber.State;
      QueueAt(conn);
      SubscribersApart();
      subscribers[conn].Reset(None, None);
      OneSubscriber(conn);
    }

    lemma DistinctOrder()
      requires Valid()
      ensures Distinct(order) && forall t :: t in order ==> t in Sessions()
    {}

    lemma VictimHasCycles(t: int)
      requires t in Sessions() && Sessions()[t].cycles != []
      ensures t in sessions && sessions[t].cycles != []
    {}
  }

  /** One turn of the eviction loop. */
  lemma EnforceStep(order: seq<int>, sessions: map<int, Session>, limit: nat)
    requires Distinct(order)
    ensures TotalRanges(order, sessions) <= limit || Victim(order, sessions).None? ==>
      Enforce(order, sessions, limit) == sessions
    ensures Victim(order, sessions).Some? ==>
      var t := Victim(order, sessions).value;
      var left := sessions[t := LiveSessions.PopOldest(sessions[t])];
      && TotalRanges(order, left) == TotalRanges(order, sessions) - |sessions[t].cycles[0].record.ranges|
      && TotalCycles(order, left) == TotalCycles(order, sessions) - 1
      && (TotalRanges(order, sessions) > limit ==> Enforce(order, sessions, limit) == Enforce(order, left, limit))
  {
    if Victim(order, sessions).Some? {
      TotalsAfterPop(order, sessions, Victim(order, sessions).value);
    }
  }

  lemma VictimStep(sessions: map<int, Session>, front: seq<int>, t: int)
    ensures Victim([], sessions) == None
    ensures Victim(front + [t], sessions) ==
      var best := Victim(front, sessions);
      if t !in sessions || sessions[t].cycles == [] then best
      else if best.None? || Heavier(sessions[t], sessions[best.value]) then Some(t)
      else best
  {
    assert (front + [t])[..|front|] == front;
  }

  /** The queues once every connection outside `left` has been told. */
  function Told(queues: map<nat, Queue>, left: set<nat>, tagId: int, frame: Frame): map<nat, Queue> {
    map c | c in queues :: if c in left then queues[c] else Deliver(queues[c], tagId, frame)
  }

  lemma ToldNone(queues: map<nat, Queue>, tagId: int, frame: Frame)
    ensures Told(queues, queues.Keys, tagId, frame) == queues
  {}

  lemma ToldOne(queues: map<nat, Queue>, left: set<nat>, c: nat, tagId: int, frame: Frame)
    requires c in left && c in queues
    ensures c in Told(queues, left, tagId, frame)
    ensures Told(queues, left - {c}, tagId, frame)
         == Told(queues, left, tagId, frame)[c := Deliver(Told(queues, left, tagId, frame)[c], tagId, frame)]
  {}

  lemma ToldAll(queues: map<nat, Queue>, tagId: int, frame: Frame)
    ensures Told(queues, {}, tagId, frame) == map c | c in queues :: Deliver(queues[c], tagId, frame)
  {}

  lemma AcceptedGrows(s: Session, c: CycleRecord)
    ensures |Accept(s, c).accepted| == |s.accepted| + if Late(s, c) then 0 else 1
  {}
}
