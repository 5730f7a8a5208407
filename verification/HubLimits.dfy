/** The memory limits of the hub, after every run. */
module HubLimits {
  import opened Prelude
  import opened Packets
  import opened LiveTypes
  import opened LiveSessions
  import opened HubStates
  import opened HubInvariants
  import opened HubRuns

  /** What a session buffers never exceeds its limits, nor its retention as long as its times never go back. */
  ghost predicate Fits(cfg: Config, s: Session) {
    && |s.cycles| <= cfg.maxBufferCycles && s.rangeCount <= cfg.maxBufferRanges
    && s.rangeCount == RangesIn(s.cycles)
    && (TimesNeverGoBack(s.accepted) ==>
          forall i :: 0 <= i < |s.cycles| ==> s.cycles[|s.cycles| - 1].tMs - s.cycles[i].tMs <= cfg.retentionMs)
  }

  ghost predicate Limited(cfg: Config, h: Hub) {
    && (forall t :: t in h.sessions ==> Fits(cfg, h.sessions[t]))
    && TotalRanges(h.order, h.sessions) <= cfg.maxTotalRanges
  }

  /** `r` buffers what `s` does. */
  predicate SameBuffer(s: Session, r: Session) {
    r.cycles == s.cycles && r.rangeCount == s.rangeCount && r.accepted == s.accepted
  }

  predicate SameBuffers(h: Hub, r: Hub) {
    && r.order == h.order && r.sessions.Keys == h.sessions.Keys
    && forall t :: t in h.sessions ==> SameBuffer(h.sessions[t], r.sessions[t])
  }

  lemma {:induction false} SameTotals(order: seq<int>, a: map<int, Session>, b: map<int, Session>)
    requires a.Keys == b.Keys && forall t :: t in a ==> SameBuffer(a[t], b[t])
    ensures TotalRanges(order, a) == TotalRanges(order, b)
  {
    if order != [] {
      SameTotals(order[..|order| - 1], a, b);
    }
  }

  lemma SameLimits(cfg: Config, h: Hub, r: Hub)
    requires Limited(cfg, h) && SameBuffers(h, r)
    ensures Limited(cfg, r)
  {
    SameTotals(h.order, h.sessions, r.sessions);
  }

  lemma EndSameBuffers(h: Hub, t: int, reason: EndReason)
    requires t in h.sessions
    ensures SameBuffers(h, Flush(h, t)) && SameBuffers(h, End(h, t, reason))
  {
    hide Deliver, LastOf;
  }

  lemma PopFits(cfg: Config, s: Session)
    requires Fits(cfg, s) && s.cycles != []
    ensures Fits(cfg, PopOldest(s))
  {
    assert RangesIn(s.cycles) == |s.cycles[0].record.ranges| + RangesIn(s.cycles[1..]);
  }

  /** The loop ends within the total: either it got there, or no session buffers anything any more. */
  lemma {:induction false} EnforceLimits(cfg: Config, order: seq<int>, sessions: map<int, Session>)
    requires Distinct(order) && (forall t :: t in order ==> t in sessions)
    requires forall t :: t in sessions ==> Fits(cfg, sessions[t])
    ensures forall t :: t in sessions ==> Fits(cfg, Enforce(order, sessions, cfg.maxTotalRanges)[t])
    ensures TotalRanges(order, Enforce(order, sessions, cfg.maxTotalRanges)) <= cfg.maxTotalRanges
    decreases TotalCycles(order, sessions)
  {
    hide Fits;
    var v := Victim(order, sessions);
    if TotalRanges(order, sessions) > cfg.maxTotalRanges {
      if v.Some? {
        TotalsAfterPop(order, sessions, v.value);
        PopFits(cfg, sessions[v.value]);
        EnforceLimits(cfg, order, sessions[v.value := PopOldest(sessions[v.value])]);
      } else {
        NothingBuffered(cfg, order, sessions);
      }
    }
  }

  lemma {:induction false} NothingBuffered(cfg: Config, order: seq<int>, sessions: map<int, Session>)
    requires forall t :: t in order && t in sessions ==> sessions[t].cycles == [] && Fits(cfg, sessions[t])
    ensures TotalRanges(order, sessions) == 0
  {
    if order != [] {
      assert order == order[..|order| - 1] + [order[|order| - 1]];
      NothingBuffered(cfg, order[..|order| - 1], sessions);
    }
  }

  /** An active session loses cycles to the total limit only once no ended session buffers any. */
  lemma {:induction false} EndedSessionsGoFirst(order: seq<int>, sessions: map<int, Session>, limit: nat, t: int, u: int)
    requires Distinct(order) && t in order && u in order && t in sessions && u in sessions
    requires sessions[t].active && !sessions[u].active
    requires Enforce(order, sessions, limit)[t] != sessions[t]
    ensures Enforce(order, sessions, limit)[u].cycles == []
    decreases TotalCycles(order, sessions)
  {
    var v := Victim(order, sessions);
    if TotalRanges(order, sessions) > limit && v.Some? {
      TotalsAfterPop(order, sessions, v.value);
      var left := sessions[v.value := PopOldest(sessions[v.value])];
      if left[t] != Enforce(order, left, limit)[t] {
        EndedSessionsGoFirst(order, left, limit, t, u);
      } else {
        assert v.value == t && sessions[u].cycles == [] by {
          if sessions[u].cycles != [] {
            assert Heavier(sessions[u], sessions[t]);
          }
        }
        EmptyStaysEmpty(order, left, limit, u);
      }
    }
  }

  lemma {:induction false} EmptyStaysEmpty(order: seq<int>, sessions: map<int, Session>, limit: nat, u: int)
    requires Distinct(order) && u in sessions && sessions[u].cycles == []
    ensures Enforce(order, sessions, limit)[u] == sessions[u]
    decreases TotalCycles(order, sessions)
  {
    var v := Victim(order, sessions);
    if TotalRanges(order, sessions) > limit && v.Some? {
      TotalsAfterPop(order, sessions, v.value);
      EmptyStaysEmpty(order, sessions[v.value := PopOldest(sessions[v.value])], limit, u);
    }
  }

  // ---------------------------------------------------------------- the total limit takes no more than needed

  ghost predicate TailOf(r: Session, s: Session) {
    |r.cycles| <= |s.cycles| && r.cycles == s.cycles[|s.cycles| - |r.cycles|..]
  }

  /** The newest of the cycles of `s` that `r` no longer buffers. */
  function LastGone(r: Session, s: Session): LiveCycle
    requires |r.cycles| < |s.cycles|
  {
    s.cycles[|s.cycles| - |r.cycles| - 1]
  }

  lemma PopTail(r: Session, s: Session)
    requires s.cycles != [] && TailOf(r, PopOldest(s))
    ensures TailOf(r, s)
    ensures |r.cycles| < |PopOldest(s).cycles| ==> LastGone(r, PopOldest(s)) == LastGone(r, s)
    ensures |r.cycles| == |PopOldest(s).cycles| ==> LastGone(r, s) == s.cycles[0]
  {}

  lemma {:induction false} EnforceTail(order: seq<int>, sessions: map<int, Session>, limit: nat, t: int)
    requires Distinct(order) && t in sessions
    ensures TailOf(Enforce(order, sessions, limit)[t], sessions[t])
    decreases TotalCycles(order, sessions)
  {
    hide PopOldest, TotalRanges;
    var v := Victim(order, sessions);
    if TotalRanges(order, sessions) > limit && v.Some? {
      TotalsAfterPop(order, sessions, v.value);
      var left := sessions[v.value := PopOldest(sessions[v.value])];
      EnforceTail(order, left, limit, t);
      if t == v.value {
        PopTail(Enforce(order, left, limit)[t], sessions[t]);
      }
    }
  }

  /** With the last cycle it lost, this session would put the total over the limit. */
  ghost predicate NeedsLoss(order: seq<int>, r: map<int, Session>, sessions: map<int, Session>, limit: nat, t: int) {
    && t in order && t in r && t in sessions && |r[t].cycles| < |sessions[t].cycles|
    && TotalRanges(order, r) + |LastGone(r[t], sessions[t]).record.ranges| > limit
  }

  /** The loop evicts nothing that fits: either nothing at all, or one eviction fewer would exceed the total. */
  lemma {:induction false} EnforceTakesNoMore(order: seq<int>, sessions: map<int, Session>, limit: nat)
    requires Distinct(order)
    ensures var r := Enforce(order, sessions, limit); r == sessions || exists t :: NeedsLoss(order, r, sessions, limit, t)
    decreases TotalCycles(order, sessions)
  {
    hide PopOldest, TotalRanges, NeedsLoss;
    var v := Victim(order, sessions);
    if TotalRanges(order, sessions) > limit && v.Some? {
      TotalsAfterPop(order, sessions, v.value);
      var left := sessions[v.value := PopOldest(sessions[v.value])];
      EnforceTakesNoMore(order, left, limit);
      var r := Enforce(order, left, limit);
      EnforceTail(order, left, limit, v.value);
      if r == left {
        LossJustNeeded(order, sessions, limit, v.value);
      } else {
        var t :| NeedsLoss(order, r, left, limit, t);
        LossStillNeeded(order, r, sessions, limit, v.value, t);
      }
    }
  }

  lemma LossJustNeeded(order: seq<int>, sessions: map<int, Session>, limit: nat, v: int)
    requires Distinct(order) && v in order && v in sessions && sessions[v].cycles != []
    requires TotalRanges(order, sessions) > limit
    ensures NeedsLoss(order, sessions[v := PopOldest(sessions[v])], sessions, limit, v)
  {
    hide TotalRanges, RangesIn;
    TotalsAfterPop(order, sessions, v);
  }

  lemma LossStillNeeded(order: seq<int>, r: map<int, Session>, sessions: map<int, Session>, limit: nat, v: int, t: int)
    requires v in sessions && sessions[v].cycles != [] && v in r && TailOf(r[v], PopOldest(sessions[v]))
    requires NeedsLoss(order, r, sessions[v := PopOldest(sessions[v])], limit, t)
    ensures NeedsLoss(order, r, sessions, limit, t)
  {
    PopTail(r[v], sessions[v]);
    hide PopOldest, TotalRanges;
  }

  /** Every range count is that of the buffered cycles. */
  ghost predicate AllCounted(sessions: map<int, Session>) {
    forall t :: t in sessions ==> sessions[t].rangeCount == RangesIn(sessions[t].cycles)
  }

  lemma PopCounted(sessions: map<int, Session>, v: int)
    requires AllCounted(sessions) && v in sessions && sessions[v].cycles != []
    ensures AllCounted(sessions[v := PopOldest(sessions[v])])
    ensures PopOldest(sessions[v]).rangeCount == sessions[v].rangeCount - |sessions[v].cycles[0].record.ranges|
  {}

  lemma {:induction false} EnforceCounts(order: seq<int>, sessions: map<int, Session>, limit: nat)
    requires Distinct(order) && AllCounted(sessions)
    ensures AllCounted(Enforce(order, sessions, limit))
    ensures forall t :: t in sessions ==>
      Enforce(order, sessions, limit)[t].rangeCount <= sessions[t].rangeCount
    decreases TotalCycles(order, sessions)
  {
    hide PopOldest, TotalRanges, AllCounted, RangesIn;
    var v := Victim(order, sessions);
    if TotalRanges(order, sessions) > limit && v.Some? {
      TotalsAfterPop(order, sessions, v.value);
      PopCounted(sessions, v.value);
      EnforceCounts(order, sessions[v.value := PopOldest(sessions[v.value])], limit);
    }
  }

  lemma NothingCounted(sessions: map<int, Session>, t: int)
    requires AllCounted(sessions) && t in sessions
    ensures sessions[t].cycles == [] ==> sessions[t].rangeCount == 0
    ensures sessions[t].rangeCount >= 0
  {}

  /** Larger sessions go first: with its last loss back, a session would still be as large as any of its kind is left. */
  lemma {:induction false} LargestGoFirst(order: seq<int>, sessions: map<int, Session>, limit: nat, t: int, u: int)
    requires Distinct(order) && AllCounted(sessions) && t in order && u in order && t in sessions && u in sessions
    requires sessions[t].active == sessions[u].active
    ensures var r := Enforce(order, sessions, limit);
      |r[u].cycles| < |sessions[u].cycles| ==>
        r[u].rangeCount + |LastGone(r[u], sessions[u]).record.ranges| >= r[t].rangeCount
    decreases TotalCycles(order, sessions)
  {
    var v := Victim(order, sessions);
    if TotalRanges(order, sessions) > limit && v.Some? {
      TotalsAfterPop(order, sessions, v.value);
      PopCounted(sessions, v.value);
      var left := sessions[v.value := PopOldest(sessions[v.value])];
      var r := Enforce(order, left, limit);
      PopKeepsActive(sessions[v.value]);
      LargestGoFirst(order, left, limit, t, u);
      EnforceTail(order, left, limit, u);
      EnforceCounts(order, left, limit);
      NothingCounted(sessions, t);
      SameCount(left, r, u);
      hide PopOldest, TotalRanges, AllCounted, RangesIn, Enforce;
      if v.value == u {
        PopTail(r[u], sessions[u]);
      }
    }
  }

  lemma PopKeepsActive(s: Session)
    requires s.cycles != []
    ensures PopOldest(s).active == s.active
  {}

  /** Sessions that buffer the same count the same. */
  lemma SameCount(a: map<int, Session>, b: map<int, Session>, u: int)
    requires AllCounted(a) && AllCounted(b) && u in a && u in b && TailOf(b[u], a[u])
    ensures |b[u].cycles| == |a[u].cycles| ==> b[u].rangeCount == a[u].rangeCount
  {}

  /** A packet that fits evicts nothing: its session buffers all it did and all it accepted, and no other session loses any. */
  lemma WhatFitsStays(cfg: Config, h: Hub, p: TelemetryPacket)
    requires HubOk(h) && p.tagId in h.sessions && h.sessions[p.tagId].active
    requires var taken := AcceptAll(h.sessions[p.tagId], p.cycles);
      && WithinLimits(taken.cycles, cfg.maxBufferCycles, cfg.maxBufferRanges, cfg.retentionMs)
      && TotalRanges(h.order, h.sessions[p.tagId := taken]) <= cfg.maxTotalRanges
    ensures EnforceTotal(cfg, TakeCycles(cfg, h, p)).sessions
         == h.sessions[p.tagId := AcceptAll(h.sessions[p.tagId], p.cycles)]
  {
    SessionSound(h, p.tagId);
    var taken := AcceptAll(h.sessions[p.tagId], p.cycles);
    AcceptAllSound(h.sessions[p.tagId], p.cycles);
    hide HubOk, AcceptAll, Sound;
    FitsUntrimmed(cfg, taken);
  }

  lemma FitsUntrimmed(cfg: Config, s: Session)
    requires Sound(s) && WithinLimits(s.cycles, cfg.maxBufferCycles, cfg.maxBufferRanges, cfg.retentionMs)
    ensures Trimmed(cfg, s) == s
  {
    SoundBuffers(s);
  }

  lemma TrimmedFits(cfg: Config, s: Session)
    requires Sound(s)
    ensures Fits(cfg, Trimmed(cfg, s))
  {
    hide Chain, CursorAtEnd, BatchesInOrder, AllAccountedFor, Trim;
    TrimSound(s, cfg.maxBufferCycles, cfg.maxBufferRanges, cfg.retentionMs);
    var r := Trimmed(cfg, s);
    if TimesNeverGoBack(r.accepted) {
      forall i | 0 <= i < |r.cycles| ensures r.cycles[|r.cycles| - 1].tMs - r.cycles[i].tMs <= cfg.retentionMs {
        var n := |r.accepted| - |r.cycles|;
        assert r.cycles[i] == r.accepted[n + i] && r.cycles[0] == r.accepted[n];
      }
    }
  }

  lemma StartLimits(cfg: Config, h: Hub, t: int, bootId: int, now: real)
    requires WellFormed(h) && forall u :: u in h.sessions ==> Fits(cfg, h.sessions[u])
    ensures forall u :: u in Start(h, t, bootId, now).sessions ==> Fits(cfg, Start(h, t, bootId, now).sessions[u])
  {}

  ghost predicate AllFit(cfg: Config, h: Hub) {
    forall t :: t in h.sessions ==> Fits(cfg, h.sessions[t])
  }

  lemma SessionForFits(cfg: Config, h: Hub, p: TelemetryPacket, now: real)
    requires WellFormed(h) && AllFit(cfg, h)
    ensures AllFit(cfg, SessionFor(h, p, now))
  {
    hide Fits, End, Start, Resume;
    if p.tagId !in h.sessions {
      StartLimits(cfg, h, p.tagId, p.bootId, now);
    } else if h.sessions[p.tagId].bootId != p.bootId {
      EndSameBuffers(h, p.tagId, Replaced);
      SameFits(cfg, h, End(h, p.tagId, Replaced));
      StartLimits(cfg, End(h, p.tagId, Replaced), p.tagId, p.bootId, now);
    } else if !h.sessions[p.tagId].active {
      ResumeSameBuffers(h, p.tagId);
      SameFits(cfg, h, Resume(h, p.tagId));
    }
  }

  lemma ResumeSameBuffers(h: Hub, t: int)
    requires t in h.sessions
    ensures SameBuffers(h, Resume(h, t))
  {}

  lemma SameFits(cfg: Config, h: Hub, r: Hub)
    requires AllFit(cfg, h) && SameBuffers(h, r)
    ensures AllFit(cfg, r)
  {}

  lemma TakeCyclesFits(cfg: Config, h: Hub, p: TelemetryPacket)
    requires WellFormed(h) && AllFit(cfg, h)
    requires p.tagId in h.sessions && Sound(h.sessions[p.tagId]) && h.sessions[p.tagId].active
    ensures AllFit(cfg, TakeCycles(cfg, h, p))
  {
    hide Sound, Fits, Trimmed, AcceptAll;
    AcceptAllSound(h.sessions[p.tagId], p.cycles);
    TrimmedFits(cfg, AcceptAll(h.sessions[p.tagId], p.cycles));
  }

  lemma EnforceTotalLimits(cfg: Config, h: Hub)
    requires WellFormed(h) && AllFit(cfg, h)
    ensures Limited(cfg, EnforceTotal(cfg, h))
  {
    hide Fits, Enforce;
    EnforceLimits(cfg, h.order, h.sessions);
  }

  lemma PublishLimits(cfg: Config, h: Hub, p: TelemetryPacket, now: real)
    requires HubOk(h) && Limited(cfg, h)
    ensures Limited(cfg, Publish(cfg, h, p, now))
  {
    hide Sound, Fits, TagsOk, ConnsOk, SessionFor, TakeCycles, EnforceTotal, Touch, End, SameBuffer, TotalRanges;
    if p.bootId !in EndedOf(h, p.tagId) {
      SessionForOk(h, p, now);
      SessionForFits(cfg, h, p, now);
      var found := SessionFor(h, p, now);
      SessionSound(found, p.tagId);
      TakeCyclesFits(cfg, found, p);
      var left := EnforceTotal(cfg, TakeCycles(cfg, found, p));
      EnforceTotalLimits(cfg, TakeCycles(cfg, found, p));
      var touched := Touch(left, p.tagId, now);
      TouchSameBuffers(left, p.tagId, now);
      SameLimits(cfg, left, touched);
      if p.Last() {
        EndSameBuffers(touched, p.tagId, TagEnd);
        SameLimits(cfg, touched, End(touched, p.tagId, TagEnd));
      }
    }
  }

  lemma TouchSameBuffers(h: Hub, t: int, now: real)
    requires t in h.sessions
    ensures SameBuffers(h, Touch(h, t, now))
  {}

  lemma SameBuffersTwice(h: Hub, g: Hub, r: Hub)
    requires SameBuffers(h, g) && SameBuffers(g, r)
    ensures SameBuffers(h, r)
  {}

  lemma TickOneSameBuffers(cfg: Config, h: Hub, t: int, now: real)
    requires t in h.sessions
    ensures SameBuffers(h, TickOne(cfg, h, t, now))
  {
    hide Flush, End, SameBuffers;
    EndSameBuffers(h, t, Timeout);
    EndSameBuffers(Flush(h, t), t, Timeout);
    if TickOne(cfg, h, t, now) == End(Flush(h, t), t, Timeout) {
      SameBuffersTwice(h, Flush(h, t), End(Flush(h, t), t, Timeout));
    }
  }

  lemma {:induction false} TickSameBuffers(cfg: Config, h: Hub, now: real, n: nat)
    requires WellFormed(h) && n <= |h.order|
    ensures SameBuffers(h, TickUpTo(cfg, h, now, n))
  {
    hide TickOne;
    if n > 0 {
      TickSameBuffers(cfg, h, now, n - 1);
      var g := TickUpTo(cfg, h, now, n - 1);
      TickOneSameBuffers(cfg, g, h.order[n - 1], now);
      SameBuffersTwice(h, g, TickOne(cfg, g, h.order[n - 1], now));
    }
  }

  lemma NoteHelloSameBuffers(h: Hub, t: int, bootId: int, sessionId: int, configRev: Option<int>)
    ensures SameBuffers(h, NoteHello(h, t, bootId, sessionId, configRev))
  {
    hide Tell, Remember;
    var rev := KnownRev(h, (t, bootId), configRev);
    RememberKeeps(h, (t, bootId), Hello(sessionId, rev));
    TellSameBuffers(Remember(h, (t, bootId), Hello(sessionId, rev)), t, bootId, sessionId, rev);
  }

  lemma TellSameBuffers(h: Hub, t: int, bootId: int, sessionId: int, rev: Option<int>)
    ensures SameBuffers(h, Tell(h, t, bootId, sessionId, rev))
  {
    hide ToldViewers;
    if t in h.sessions && h.sessions[t].bootId == bootId {
      var s := h.sessions[t];
      var newRev := rev.Some? && rev != s.configRev;
      var informed := s.(sessionId := Some(sessionId), configRev := if newRev then rev else s.configRev);
      ToldSessions(h.(sessions := h.sessions[t := informed]), t, newRev, s.sessionId != Some(sessionId));
    }
  }

  lemma ToldSessions(h: Hub, t: int, newRev: bool, changed: bool)
    requires t in h.sessions
    ensures var r := ToldViewers(h, t, newRev, changed); r.sessions == h.sessions && r.order == h.order
  {
    hide Deliver;
  }

  lemma NoteSessionSameBuffers(h: Hub, t: int, bootId: int, sessionId: int)
    ensures SameBuffers(h, NoteSession(h, t, bootId, sessionId))
  {
    hide Broadcast;
    if t in h.sessions {
      var s := h.sessions[t].(sessionId := Some(sessionId));
      BroadcastSessions(h.(sessions := h.sessions[t := s]), t, InfoFrame(s));
    }
  }

  lemma {:induction false} NoteSessionsSameBuffers(h: Hub, items: seq<((int, int), int)>)
    ensures SameBuffers(h, NoteSessions(h, items))
  {
    if items != [] {
      var last := items[|items| - 1];
      NoteSessionsSameBuffers(h, items[..|items| - 1]);
      NoteSessionSameBuffers(NoteSessions(h, items[..|items| - 1]), last.0.0, last.0.1, last.1);
    }
    hide NoteSession;
  }

  lemma HandleLimits(cfg: Config, h: Hub, e: Event)
    requires HubOk(h) && Limited(cfg, h)
    ensures Limited(cfg, Handle(cfg, h, e))
  {
    hide TagsOk, ConnsOk, Limited, Publish, TickUpTo, NoteHello, NoteSessions;
    match e
    case Published(packet, now) => PublishLimits(cfg, h, packet, now);
    case Ticked(now) =>
      TickSameBuffers(cfg, h, now, |h.order|);
      SameLimits(cfg, h, Handle(cfg, h, e));
    case HelloNoted(t, bootId, sessionId, configRev) =>
      NoteHelloSameBuffers(h, t, bootId, sessionId, configRev);
      SameLimits(cfg, h, Handle(cfg, h, e));
    case SessionsNoted(items) =>
      NoteSessionsSameBuffers(h, items);
      SameLimits(cfg, h, Handle(cfg, h, e));
    case _ =>
      SameLimits(cfg, h, Handle(cfg, h, e));
  }

  /** After every run each session is within its limits and all of them together within the total. */
  lemma {:induction false} RunStaysWithinLimits(cfg: Config, events: seq<Event>)
    ensures Limited(cfg, Run(cfg, events))
  {
    hide HubOk, Limited, Handle;
    if events == [] {
      EmptyLimits(cfg);
    } else {
      RunStaysWithinLimits(cfg, events[..|events| - 1]);
      RunOk(cfg, events[..|events| - 1]);
      HandleLimits(cfg, Run(cfg, events[..|events| - 1]), events[|events| - 1]);
    }
  }

  lemma EmptyLimits(cfg: Config)
    ensures Limited(cfg, EmptyHub)
  {}

  // ---------------------------------------------------------------- every received cycle is counted once

  function Received(events: seq<Event>): nat {
    if events == [] then 0
    else
      var last := events[|events| - 1];
      Received(events[..|events| - 1]) + if last.Published? then |last.packet.cycles| else 0
  }

  predicate SameIntake(h: Hub, r: Hub) {
    && r.stats.published == h.stats.published && r.stats.late == h.stats.late && r.stats.stale == h.stats.stale
  }

  lemma EndSameIntake(h: Hub, t: int, reason: EndReason)
    requires t in h.sessions
    ensures SameIntake(h, Flush(h, t)) && SameIntake(h, End(h, t, reason))
  {
    hide Deliver, LastOf, Flushed;
  }

  lemma TickOneSameIntake(cfg: Config, h: Hub, t: int, now: real)
    requires t in h.sessions
    ensures SameIntake(h, TickOne(cfg, h, t, now))
  {
    hide Flush, End;
    EndSameIntake(h, t, Timeout);
    EndSameIntake(Flush(h, t), t, Timeout);
  }

  lemma {:induction false} TickSameIntake(cfg: Config, h: Hub, now: real, n: nat)
    requires WellFormed(h) && n <= |h.order|
    ensures SameIntake(h, TickUpTo(cfg, h, now, n))
  {
    hide TickOne;
    if n > 0 {
      TickSameIntake(cfg, h, now, n - 1);
      TickOneSameIntake(cfg, TickUpTo(cfg, h, now, n - 1), h.order[n - 1], now);
    }
  }

  lemma {:induction false} NoteSessionsSameIntake(h: Hub, items: seq<((int, int), int)>)
    ensures SameIntake(h, NoteSessions(h, items))
  {
    if items != [] {
      NoteSessionsSameIntake(h, items[..|items| - 1]);
    }
  }

  lemma NoteHelloSameIntake(h: Hub, t: int, bootId: int, sessionId: int, configRev: Option<int>)
    ensures SameIntake(h, NoteHello(h, t, bootId, sessionId, configRev))
  {
    hide Forget, Removed;
  }

  lemma StartSameIntake(h: Hub, t: int, bootId: int, now: real)
    ensures SameIntake(h, Start(h, t, bootId, now))
  {}

  lemma SessionForSameIntake(h: Hub, p: TelemetryPacket, now: real)
    ensures SameIntake(h, SessionFor(h, p, now))
  {
    hide Start, End;
    StartSameIntake(h, p.tagId, p.bootId, now);
    if p.tagId in h.sessions {
      EndSameIntake(h, p.tagId, Replaced);
      StartSameIntake(End(h, p.tagId, Replaced), p.tagId, p.bootId, now);
    }
  }

  /** A packet's cycles split into published, late and stale. */
  lemma PublishIntake(cfg: Config, h: Hub, p: TelemetryPacket, now: real)
    requires WellFormed(h)
    ensures var s, r := h.stats, Publish(cfg, h, p, now).stats;
      r.published + r.late + r.stale == s.published + s.late + s.stale + |p.cycles|
  {
    hide SessionFor, Trimmed, TrimCount, AcceptAll, Enforce, End, TotalCycles;
    SessionForSameIntake(h, p, now);
    if p.bootId !in EndedOf(h, p.tagId) {
      var taken := TakeCycles(cfg, SessionFor(h, p, now), p);
      var touched := Touch(EnforceTotal(cfg, taken), p.tagId, now);
      EndSameIntake(touched, p.tagId, TagEnd);
    }
  }

  lemma HandleIntake(cfg: Config, h: Hub, e: Event)
    requires WellFormed(h)
    ensures var s, r := h.stats, Handle(cfg, h, e).stats;
      r.published + r.late + r.stale == s.published + s.late + s.stale + if e.Published? then |e.packet.cycles| else 0
  {
    hide Publish, TickUpTo, NoteSessions, NoteHello;
    match e
    case Published(packet, now) => PublishIntake(cfg, h, packet, now);
    case Ticked(now) => TickSameIntake(cfg, h, now, |h.order|);
    case HelloNoted(t, bootId, sessionId, configRev) => NoteHelloSameIntake(h, t, bootId, sessionId, configRev);
    case SessionsNoted(items) => NoteSessionsSameIntake(h, items);
    case _ =>
  }

  /** Every cycle received is published, late or stale. */
  lemma {:induction false} EveryCycleCounted(cfg: Config, events: seq<Event>)
    ensures var stats := Run(cfg, events).stats;
      stats.published + stats.late + stats.stale == Received(events)
  {
    hide Handle;
    if events != [] {
      EveryCycleCounted(cfg, events[..|events| - 1]);
      HandleIntake(cfg, Run(cfg, events[..|events| - 1]), events[|events| - 1]);
    }
  }
}
