/** What the hub's operations come to for the log and for each session, in plain terms. */
module HubSteps {
  import opened Prelude
  import opened Packets
  import opened LiveTypes
  import opened LiveSessions
  import opened HubStates

  // ---------------------------------------------------------------- a tick

  /** What a tick broadcasts for a session: its pending cycles, and its end when it has been silent too long. */
  function FramesAtTick(cfg: Config, s: Session, now: real): seq<Frame> {
    (if s.pending == [] then [] else [Append(Identity(s.sessionId, s.tagId, s.bootId), s.pending)])
    + if s.active && now - s.lastSeen >= cfg.sessionTimeout
      then [SessionEnd(Identity(s.sessionId, s.tagId, s.bootId), Timeout)] else []
  }

  function SentFor(tagId: int, frames: seq<Frame>): seq<Sent> {
    seq(|frames|, i requires 0 <= i < |frames| => Sent(tagId, frames[i]))
  }

  /** The frames of the first `n` sessions, session by session. */
  function LogAtTick(cfg: Config, h: Hub, now: real, n: nat): seq<Sent>
    requires WellFormed(h) && n <= |h.order|
  {
    if n == 0 then []
    else LogAtTick(cfg, h, now, n - 1) + SentFor(h.order[n - 1], FramesAtTick(cfg, h.sessions[h.order[n - 1]], now))
  }

  /** Everything pending is out, and a session goes on exactly when it was not silent too long; the rest is as before. */
  ghost predicate AfterTick(cfg: Config, s: Session, r: Session, now: real) {
    r == s.(pending := [], batches := r.batches, active := s.active && now - s.lastSeen < cfg.sessionTimeout)
  }

  lemma FlushDoes(h: Hub, t: int)
    requires t in h.sessions && h.sessions[t].tagId == t
    ensures var s, r := h.sessions[t], Flush(h, t);
      && r.sessions == h.sessions[t := r.sessions[t]]
      && r.sessions[t] == s.(pending := [], batches := r.sessions[t].batches)
      && r.log == h.log + SentFor(t, if s.pending == [] then [] else [Append(Identity(s.sessionId, t, s.bootId), s.pending)])
  {
    assert SentFor(t, []) == [] && h.log + [] == h.log;
  }

  lemma CloseDoes(h: Hub, t: int, reason: EndReason)
    requires t in h.sessions && h.sessions[t].tagId == t
    ensures var s, r := h.sessions[t], Close(h, t, reason);
      && r.sessions == h.sessions[t := s.(active := false)]
      && r.log == h.log + SentFor(t, if s.active then [SessionEnd(Identity(s.sessionId, t, s.bootId), reason)] else [])
  {
    assert SentFor(t, []) == [] && h.log + [] == h.log;
    assert h.sessions[t := h.sessions[t]] == h.sessions;
  }

  lemma SentConcat(t: int, a: seq<Frame>, b: seq<Frame>)
    ensures SentFor(t, a + b) == SentFor(t, a) + SentFor(t, b)
  {}

  lemma TickOneDoes(cfg: Config, h: Hub, t: int, now: real)
    requires t in h.sessions && h.sessions[t].tagId == t
    ensures var s, r := h.sessions[t], TickOne(cfg, h, t, now);
      && r.sessions == h.sessions[t := r.sessions[t]]
      && AfterTick(cfg, s, r.sessions[t], now)
      && r.log == h.log + SentFor(t, FramesAtTick(cfg, s, now))
  {
    hide Flush, Close, SentFor;
    var s, flushed := h.sessions[t], Flush(h, t);
    FlushDoes(h, t);
    var appended := if s.pending == [] then [] else [Append(Identity(s.sessionId, t, s.bootId), s.pending)];
    if s.active && now - s.lastSeen >= cfg.sessionTimeout {
      FlushDoes(flushed, t);
      SentNone(t);
      assert Flush(flushed, t).sessions[t].batches == flushed.sessions[t].batches by {
        FlushIdle(flushed, t);
      }
      CloseDoes(Flush(flushed, t), t, Timeout);
      SentConcat(t, appended, [SessionEnd(Identity(s.sessionId, t, s.bootId), Timeout)]);
    } else {
      assert appended + [] == appended;
    }
  }

  lemma SentNone(t: int)
    ensures SentFor(t, []) == []
  {}

  lemma FlushIdle(h: Hub, t: int)
    requires t in h.sessions && h.sessions[t].pending == []
    ensures Flush(h, t) == h
  {}

  /** The first `n` sessions of the order have had their tick, the others not yet. */
  ghost predicate TickedUpTo(cfg: Config, h: Hub, r: Hub, now: real, n: nat) {
    forall i :: 0 <= i < |h.order| ==>
      var t := h.order[i];
      && t in h.sessions && t in r.sessions
      && if i < n then AfterTick(cfg, h.sessions[t], r.sessions[t], now) else r.sessions[t] == h.sessions[t]
  }

  lemma TickUpToNone(cfg: Config, h: Hub, now: real)
    requires WellFormed(h)
    ensures TickUpTo(cfg, h, now, 0) == h
  {}

  lemma TickUpToNext(cfg: Config, h: Hub, now: real, n: nat)
    requires WellFormed(h) && n < |h.order|
    ensures TickUpTo(cfg, h, now, n + 1) == TickOne(cfg, TickUpTo(cfg, h, now, n), h.order[n], now)
  {
    hide TickOne;
  }

  lemma {:induction false} TickUpToDoes(cfg: Config, h: Hub, now: real, n: nat)
    requires WellFormed(h) && n <= |h.order|
    ensures var r := TickUpTo(cfg, h, now, n);
      && r.log == h.log + LogAtTick(cfg, h, now, n)
      && TickedUpTo(cfg, h, r, now, n)
  {
    hide TickOne, SentFor, FramesAtTick, AfterTick, TickedUpTo, TickUpTo;
    if n == 0 {
      TickUpToNone(cfg, h, now);
      NoneTicked(cfg, h, now);
    } else {
      TickUpToDoes(cfg, h, now, n - 1);
      TickUpToNext(cfg, h, now, n - 1);
      var g := TickUpTo(cfg, h, now, n - 1);
      NextToTick(cfg, h, g, now, n - 1);
      TickOneDoes(cfg, g, h.order[n - 1], now);
      OneMoreTicked(cfg, h, g, TickOne(cfg, g, h.order[n - 1], now), now, n - 1);
    }
  }

  lemma NoneTicked(cfg: Config, h: Hub, now: real)
    requires WellFormed(h)
    ensures TickedUpTo(cfg, h, h, now, 0)
  {
    hide AfterTick;
  }

  lemma NextToTick(cfg: Config, h: Hub, g: Hub, now: real, n: nat)
    requires TickedUpTo(cfg, h, g, now, n) && n < |h.order|
    ensures var t := h.order[n]; t in h.sessions && t in g.sessions && g.sessions[t] == h.sessions[t]
  {
    hide AfterTick;
  }

  lemma OneMoreTicked(cfg: Config, h: Hub, g: Hub, r: Hub, now: real, n: nat)
    requires WellFormed(h) && TickedUpTo(cfg, h, g, now, n) && n < |h.order|
    requires var t := h.order[n];
      && t in h.sessions && t in r.sessions && r.sessions == g.sessions[t := r.sessions[t]]
      && AfterTick(cfg, h.sessions[t], r.sessions[t], now)
    ensures TickedUpTo(cfg, h, r, now, n + 1)
  {
    hide AfterTick;
  }

  /**
    A tick broadcasts, session by session, just the pending cycles and the ends that are due, leaves nothing pending,
    and ends exactly the sessions that have been silent for the timeout.
   */
  ghost predicate TickedWhole(cfg: Config, h: Hub, r: Hub, now: real) {
    && WellFormed(h) && r.sessions.Keys == h.sessions.Keys
    && r.log == h.log + LogAtTick(cfg, h, now, |h.order|)
    && forall t :: t in h.sessions ==> AfterTick(cfg, h.sessions[t], r.sessions[t], now)
  }

  lemma TickDoes(cfg: Config, h: Hub, now: real)
    requires WellFormed(h)
    ensures TickedWhole(cfg, h, Tick(cfg, h, now), now)
  {
    hide TickUpTo, AfterTick, LogAtTick;
    TickUpToDoes(cfg, h, now, |h.order|);
    forall t | t in h.sessions ensures AfterTick(cfg, h.sessions[t], Tick(cfg, h, now).sessions[t], now) {
      var i :| 0 <= i < |h.order| && h.order[i] == t;
    }
  }

  /** What was pending is in the log after the tick, as one append. */
  lemma {:induction false} PendingIsLogged(cfg: Config, h: Hub, now: real, n: nat, t: int)
    requires WellFormed(h) && n <= |h.order| && t in h.order[..n] && h.sessions[t].pending != []
    ensures var s := h.sessions[t];
      Sent(t, Append(Identity(s.sessionId, t, s.bootId), s.pending)) in LogAtTick(cfg, h, now, n)
  {
    var s, last := h.sessions[t], h.order[n - 1];
    if t == last {
      var frames := FramesAtTick(cfg, s, now);
      assert SentFor(t, frames)[0] == Sent(t, Append(Identity(s.sessionId, t, s.bootId), s.pending));
      assert SentFor(t, frames)[0] in SentFor(t, frames);
    } else {
      assert h.order[..n] == h.order[..n - 1] + [last];
      PendingIsLogged(cfg, h, now, n - 1, t);
    }
  }

  /** In every run: after a tick no cycle waits to be sent; what was waiting has gone out, each session's in one append. */
  lemma TickSendsEverything(cfg: Config, events: seq<Event>, now: real, t: int)
    requires t in Run(cfg, events).sessions
    ensures var h, r := Run(cfg, events), Run(cfg, events + [Ticked(now)]);
      var s := h.sessions[t];
      && t in r.sessions && r.sessions[t].pending == []
      && h.log <= r.log
      && (s.pending != [] ==> Sent(t, Append(Identity(s.sessionId, t, s.bootId), s.pending)) in r.log[|h.log|..])
  {
    var all := events + [Ticked(now)];
    assert all[..|all| - 1] == events;
    var h := Run(cfg, events);
    TickDoes(cfg, h, now);
    hide Run, Tick, LogAtTick;
    if h.sessions[t].pending != [] {
      assert h.order[..|h.order|] == h.order;
      PendingIsLogged(cfg, h, now, |h.order|, t);
    }
  }

  // ---------------------------------------------------------------- a packet

  /** The same session, described alike and seen last at the same time, and nothing it had accepted is taken back. */
  ghost predicate SameStanding(r: Session, s: Session) {
    && r.tagId == s.tagId && r.bootId == s.bootId && r.active == s.active && r.lastSeen == s.lastSeen
    && r.sessionId == s.sessionId && r.configRev == s.configRev
    && r.since == s.since && s.accepted <= r.accepted
  }

  lemma {:induction false} AcceptAllStands(s: Session, cs: seq<CycleRecord>)
    ensures SameStanding(AcceptAll(s, cs), s)
  {
    if cs != [] {
      AcceptAllStands(s, cs[..|cs| - 1]);
    }
  }

  /** Nothing but the buffers differs. */
  ghost predicate OnlyEvicts(r: Session, s: Session) {
    SameStanding(r, s) && r.accepted == s.accepted
  }

  lemma {:induction false} TrimCountStands(s: Session, maxCycles: nat, maxRanges: nat)
    ensures OnlyEvicts(TrimCount(s, maxCycles, maxRanges), s)
    decreases |s.cycles|
  {
    if s.cycles != [] && OverLimit(s, maxCycles, maxRanges) {
      TrimCountStands(PopOldest(s), maxCycles, maxRanges);
    }
  }

  lemma {:induction false} TrimAgeStands(s: Session, latest: int, retentionMs: int)
    ensures OnlyEvicts(TrimAge(s, latest, retentionMs), s)
    decreases |s.cycles|
  {
    if TooOld(s, latest, retentionMs) {
      TrimAgeStands(PopOldest(s), latest, retentionMs);
    }
  }

  lemma TrimmedStands(cfg: Config, s: Session)
    ensures OnlyEvicts(Trimmed(cfg, s), s)
  {
    var counted := TrimCount(s, cfg.maxBufferCycles, cfg.maxBufferRanges);
    TrimCountStands(s, cfg.maxBufferCycles, cfg.maxBufferRanges);
    if counted.cycles != [] {
      TrimAgeStands(counted, counted.cycles[|counted.cycles| - 1].tMs, cfg.retentionMs);
    }
  }

  lemma {:induction false} EnforceStands(order: seq<int>, sessions: map<int, Session>, limit: nat, t: int)
    requires Distinct(order) && t in sessions
    ensures OnlyEvicts(Enforce(order, sessions, limit)[t], sessions[t])
    decreases TotalCycles(order, sessions)
  {
    var v := Victim(order, sessions);
    if TotalRanges(order, sessions) > limit && v.Some? {
      TotalsAfterPop(order, sessions, v.value);
      EnforceStands(order, sessions[v.value := PopOldest(sessions[v.value])], limit, t);
    }
  }

  /** `r` is the session `s` of the boot, gone on with. */
  ghost predicate Continues(r: Session, s: Session) {
    r.bootId == s.bootId && r.since == s.since && s.accepted <= r.accepted
  }

  /** The tag has an active session of the boot, the one it had if that was of the boot; the others are as before. */
  ghost predicate Found(h: Hub, g: Hub, p: TelemetryPacket) {
    && p.tagId in g.sessions && g.sessions[p.tagId].bootId == p.bootId && g.sessions[p.tagId].active
    && (p.tagId in h.sessions && h.sessions[p.tagId].bootId == p.bootId ==>
          Continues(g.sessions[p.tagId], h.sessions[p.tagId]))
    && forall t :: t in h.sessions && t != p.tagId ==> t in g.sessions && g.sessions[t] == h.sessions[t]
  }

  /** `r` differs from `h` in the session of one tag, which goes on. */
  ghost predicate TouchesOne(h: Hub, r: Hub, t: int) {
    && t in h.sessions && t in r.sessions && Continues(r.sessions[t], h.sessions[t])
    && r.sessions[t].lastSeen == h.sessions[t].lastSeen
    && forall u :: u in h.sessions && u != t ==> u in r.sessions && r.sessions[u] == h.sessions[u]
  }

  lemma FlushTouchesOne(h: Hub, t: int)
    requires t in h.sessions
    ensures TouchesOne(h, Flush(h, t), t) && Flush(h, t).endedBoots == h.endedBoots
  {}

  lemma CloseTouchesOne(h: Hub, t: int, reason: EndReason)
    requires t in h.sessions
    ensures TouchesOne(h, Close(h, t, reason), t) && Close(h, t, reason).endedBoots == h.endedBoots
    ensures !Close(h, t, reason).sessions[t].active
  {}

  lemma EndTouchesOne(h: Hub, t: int, reason: EndReason)
    requires t in h.sessions
    ensures TouchesOne(h, End(h, t, reason), t) && !End(h, t, reason).sessions[t].active
    ensures EndedOf(End(h, t, reason), t) == if reason.Timeout? then EndedOf(h, t)
                                             else LastOf(EndedOf(h, t) + [h.sessions[t].bootId], ENDED_BOOTS_PER_TAG)
    ensures reason.Timeout? ==> End(h, t, reason).endedBoots == h.endedBoots
  {
    hide Flush, Close, LastOf;
    FlushTouchesOne(h, t);
    var flushed := Flush(h, t);
    var remembered := if reason.Timeout? then flushed else RememberEnded(flushed, t, h.sessions[t].bootId);
    CloseTouchesOne(remembered, t, reason);
  }

  lemma StartTouchesOne(h: Hub, t: int, bootId: int, now: real)
    ensures var r := Start(h, t, bootId, now);
      && t in r.sessions && r.sessions[t].bootId == bootId && r.sessions[t].active
      && forall u :: u in h.sessions && u != t ==> u in r.sessions && r.sessions[u] == h.sessions[u]
  {}

  lemma FindsSession(h: Hub, p: TelemetryPacket, now: real)
    ensures Found(h, SessionFor(h, p, now), p)
  {
    if p.tagId !in h.sessions {
      StartTouchesOne(h, p.tagId, p.bootId, now);
    } else if h.sessions[p.tagId].bootId != p.bootId {
      EndTouchesOne(h, p.tagId, Replaced);
      StartTouchesOne(End(h, p.tagId, Replaced), p.tagId, p.bootId, now);
    }
    hide Start, End;
  }

  /**
    A packet that is not refused leaves its tag with a session of its boot, seen now, and active unless the packet is
    the boot's last, whose boot then counts as ended. A session of that boot goes on; other sessions keep their standing.
   */
  lemma PublishDoes(cfg: Config, h: Hub, p: TelemetryPacket, now: real)
    requires WellFormed(h) && p.bootId !in EndedOf(h, p.tagId)
    ensures var r := Publish(cfg, h, p, now);
      && p.tagId in r.sessions && r.sessions[p.tagId].bootId == p.bootId && r.sessions[p.tagId].lastSeen == now
      && r.sessions[p.tagId].active == !p.Last()
      && (p.Last() ==> p.bootId in EndedOf(r, p.tagId))
      && (p.tagId in h.sessions && h.sessions[p.tagId].bootId == p.bootId ==>
            Continues(r.sessions[p.tagId], h.sessions[p.tagId]))
      && forall t :: t in h.sessions && t != p.tagId ==> t in r.sessions && SameStanding(r.sessions[t], h.sessions[t])
  {
    var found := SessionFor(h, p, now);
    FindsSession(h, p, now);
    hide SessionFor;
    AbsorbDoes(cfg, found, p, now);
    hide Absorb;
  }

  lemma AbsorbDoes(cfg: Config, h: Hub, p: TelemetryPacket, now: real)
    requires WellFormed(h) && p.tagId in h.sessions && h.sessions[p.tagId].active
    requires h.sessions[p.tagId].bootId == p.bootId
    ensures var r := Absorb(cfg, h, p, now);
      && p.tagId in r.sessions && Continues(r.sessions[p.tagId], h.sessions[p.tagId])
      && r.sessions[p.tagId].lastSeen == now && r.sessions[p.tagId].active == !p.Last()
      && (p.Last() ==> p.bootId in EndedOf(r, p.tagId))
      && forall t :: t in h.sessions && t != p.tagId ==> t in r.sessions && SameStanding(r.sessions[t], h.sessions[t])
  {
    TouchedStands(cfg, h, p, now);
    hide TakeCycles, EnforceTotal, Touch;
    var touched := Touch(EnforceTotal(cfg, TakeCycles(cfg, h, p)), p.tagId, now);
    if p.Last() {
      EndTouchesOne(touched, p.tagId, TagEnd);
      LastIsKept(EndedOf(touched, p.tagId), p.bootId);
    }
    hide End, LastOf;
  }

  lemma TouchedStands(cfg: Config, h: Hub, p: TelemetryPacket, now: real)
    requires WellFormed(h) && p.tagId in h.sessions
    ensures var r := Touch(EnforceTotal(cfg, TakeCycles(cfg, h, p)), p.tagId, now);
      && p.tagId in r.sessions && Continues(r.sessions[p.tagId], h.sessions[p.tagId])
      && r.sessions[p.tagId].lastSeen == now && r.sessions[p.tagId].active == h.sessions[p.tagId].active
      && forall t :: t in h.sessions && t != p.tagId ==> t in r.sessions && SameStanding(r.sessions[t], h.sessions[t])
  {
    TakenStands(cfg, h, p);
    TotalStands(cfg, TakeCycles(cfg, h, p));
    hide TakeCycles, EnforceTotal;
  }

  lemma TakenStands(cfg: Config, h: Hub, p: TelemetryPacket)
    requires p.tagId in h.sessions
    ensures var r := TakeCycles(cfg, h, p);
      forall t :: t in h.sessions ==> t in r.sessions && SameStanding(r.sessions[t], h.sessions[t])
  {
    AcceptAllStands(h.sessions[p.tagId], p.cycles);
    TrimmedStands(cfg, AcceptAll(h.sessions[p.tagId], p.cycles));
    hide Trimmed, AcceptAll, TrimCount;
  }

  lemma TotalStands(cfg: Config, h: Hub)
    requires WellFormed(h)
    ensures var r := EnforceTotal(cfg, h);
      && r.stats == h.stats.(overflow := r.stats.overflow) && r.log == h.log
      && forall t :: t in h.sessions ==> t in r.sessions && OnlyEvicts(r.sessions[t], h.sessions[t])
  {
    forall t | t in h.sessions ensures OnlyEvicts(EnforceTotal(cfg, h).sessions[t], h.sessions[t]) {
      EnforceStands(h.order, h.sessions, cfg.maxTotalRanges, t);
    }
  }

  // ---------------------------------------------------------------- what a packet sends and counts

  /** What ending a session sends: whatever is pending, and the end if it was active. */
  function EndFrames(s: Session, reason: EndReason): seq<Frame> {
    (if s.pending == [] then [] else [Append(Identity(s.sessionId, s.tagId, s.bootId), s.pending)])
    + if s.active then [SessionEnd(Identity(s.sessionId, s.tagId, s.bootId), reason)] else []
  }

  lemma EndDoes(h: Hub, t: int, reason: EndReason)
    requires t in h.sessions && h.sessions[t].tagId == t
    ensures var s, r := h.sessions[t], End(h, t, reason);
      && r.sessions == h.sessions[t := r.sessions[t]]
      && r.sessions[t] == s.(pending := [], batches := r.sessions[t].batches, active := false)
      && r.log == h.log + SentFor(t, EndFrames(s, reason)) && r.stats == h.stats && r.hello == h.hello
  {
    hide Flush, Close, SentFor, LastOf;
    var s := h.sessions[t];
    FlushDoes(h, t);
    FlushCountsNothing(h, t);
    var flushed := Flush(h, t);
    var remembered := if reason.Timeout? then flushed else RememberEnded(flushed, t, s.bootId);
    CloseDoes(remembered, t, reason);
    CloseCountsNothing(remembered, t, reason);
    SentConcat(t, if s.pending == [] then [] else [Append(Identity(s.sessionId, t, s.bootId), s.pending)],
               if s.active then [SessionEnd(Identity(s.sessionId, t, s.bootId), reason)] else []);
  }

  lemma FlushCountsNothing(h: Hub, t: int)
    requires t in h.sessions
    ensures Flush(h, t).stats == h.stats && Flush(h, t).hello == h.hello
  {}

  lemma CloseCountsNothing(h: Hub, t: int, reason: EndReason)
    requires t in h.sessions
    ensures Close(h, t, reason).stats == h.stats && Close(h, t, reason).hello == h.hello
  {}

  /** The start of a boot's session, with what a hello has told of it. */
  function FirstStart(h: Hub, tagId: int, bootId: int): Frame {
    var key := (tagId, bootId);
    if key in h.hello then SessionStart(Identity(Some(h.hello[key].sessionId), tagId, bootId), h.hello[key].configRev)
    else SessionStart(Identity(None, tagId, bootId), None)
  }

  /** What finding a packet's session sends. */
  function FramesAtFind(h: Hub, p: TelemetryPacket): seq<Frame> {
    if p.tagId !in h.sessions then [FirstStart(h, p.tagId, p.bootId)]
    else
      var s := h.sessions[p.tagId];
      if s.bootId != p.bootId then EndFrames(s, Replaced) + [FirstStart(h, p.tagId, p.bootId)]
      else if !s.active then [SessionStart(Identity(s.sessionId, s.tagId, s.bootId), s.configRev)]
      else []
  }

  /** How many cycles the packet's session had accepted before. */
  function Had(h: Hub, p: TelemetryPacket): nat {
    if p.tagId in h.sessions && h.sessions[p.tagId].bootId == p.bootId then |h.sessions[p.tagId].accepted| else 0
  }

  lemma StartDoes(h: Hub, t: int, bootId: int, now: real)
    ensures var r := Start(h, t, bootId, now);
      && r.log == h.log + SentFor(t, [FirstStart(h, t, bootId)]) && r.stats == h.stats
      && t in r.sessions && r.sessions[t].accepted == []
  {}

  lemma ResumeDoes(h: Hub, t: int)
    requires t in h.sessions && h.sessions[t].tagId == t
    ensures var s, r := h.sessions[t], Resume(h, t);
      && r.log == h.log + SentFor(t, [SessionStart(Identity(s.sessionId, t, s.bootId), s.configRev)])
      && r.stats == h.stats && r.sessions[t].accepted == s.accepted
  {}

  lemma FindSends(h: Hub, p: TelemetryPacket, now: real)
    requires WellFormed(h)
    ensures var g := SessionFor(h, p, now);
      && g.log == h.log + SentFor(p.tagId, FramesAtFind(h, p)) && g.stats == h.stats
      && |g.sessions[p.tagId].accepted| == Had(h, p)
  {
    hide Start, End, Resume, SentFor, EndFrames;
    var t := p.tagId;
    if t !in h.sessions {
      StartDoes(h, t, p.bootId, now);
    } else if h.sessions[t].bootId != p.bootId {
      EndDoes(h, t, Replaced);
      StartDoes(End(h, t, Replaced), t, p.bootId, now);
      SentConcat(t, EndFrames(h.sessions[t], Replaced), [FirstStart(h, t, p.bootId)]);
    } else if !h.sessions[t].active {
      ResumeDoes(h, t);
    } else {
      SentNone(t);
    }
  }

  /** What a boot's last packet sends in the end: the pending cycles, if any, and the end. */
  function LastFrames(id: Identity, cycles: seq<LiveCycle>): seq<Frame> {
    (if cycles == [] then [] else [Append(id, cycles)]) + [SessionEnd(id, TagEnd)]
  }

  /**
   * A packet that is not refused sends only the frames that finding its session calls for; its cycles wait for the next
   * tick, unless it is the boot's last. Published are just the cycles its session accepted, the others are late.
   */
  lemma PublishSends(cfg: Config, h: Hub, p: TelemetryPacket, now: real)
    requires WellFormed(h) && p.bootId !in EndedOf(h, p.tagId)
    ensures var r := Publish(cfg, h, p, now);
      && p.tagId in r.sessions
      && var gained := |r.sessions[p.tagId].accepted| - Had(h, p);
         && r.stats.published == h.stats.published + gained && r.stats.late == h.stats.late + |p.cycles| - gained
         && r.stats.stale == h.stats.stale
    ensures var r := Publish(cfg, h, p, now);
      && (!p.Last() ==> r.log == h.log + SentFor(p.tagId, FramesAtFind(h, p)))
      && (p.Last() ==>
            && r.sessions[p.tagId].pending == []
            && var id := Identity(r.sessions[p.tagId].sessionId, p.tagId, p.bootId);
               exists cs :: r.log == h.log + SentFor(p.tagId, FramesAtFind(h, p) + LastFrames(id, cs)))
  {
    hide SessionFor, Absorb, SentFor, FramesAtFind, LastFrames;
    var found := SessionFor(h, p, now);
    FindSends(h, p, now);
    FindsSession(h, p, now);
    AbsorbSends(cfg, found, p, now);
    if p.Last() {
      var id := Identity(Absorb(cfg, found, p, now).sessions[p.tagId].sessionId, p.tagId, p.bootId);
      var cs :| Absorb(cfg, found, p, now).log == found.log + SentFor(p.tagId, LastFrames(id, cs));
      SentConcat(p.tagId, FramesAtFind(h, p), LastFrames(id, cs));
    }
  }

  lemma AbsorbSends(cfg: Config, h: Hub, p: TelemetryPacket, now: real)
    requires WellFormed(h) && p.tagId in h.sessions && h.sessions[p.tagId].active
    requires h.sessions[p.tagId].bootId == p.bootId
    ensures var r := Absorb(cfg, h, p, now);
      && p.tagId in r.sessions
      && var gained := |r.sessions[p.tagId].accepted| - |h.sessions[p.tagId].accepted|;
         && r.stats.published == h.stats.published + gained && r.stats.late == h.stats.late + |p.cycles| - gained
         && r.stats.stale == h.stats.stale
    ensures var r := Absorb(cfg, h, p, now);
      && (!p.Last() ==> r.log == h.log)
      && (p.Last() ==>
            && r.sessions[p.tagId].pending == []
            && var id := Identity(r.sessions[p.tagId].sessionId, p.tagId, p.bootId);
               exists cs :: r.log == h.log + SentFor(p.tagId, LastFrames(id, cs)))
  {
    TouchedCounts(cfg, h, p, now);
    TouchedStands(cfg, h, p, now);
    hide TakeCycles, EnforceTotal, Touch, SentFor;
    var touched := Touch(EnforceTotal(cfg, TakeCycles(cfg, h, p)), p.tagId, now);
    if p.Last() {
      EndDoes(touched, p.tagId, TagEnd);
      var s := touched.sessions[p.tagId];
      assert EndFrames(s, TagEnd) == LastFrames(Identity(s.sessionId, p.tagId, p.bootId), s.pending);
    }
    hide End;
  }

  lemma TouchedCounts(cfg: Config, h: Hub, p: TelemetryPacket, now: real)
    requires WellFormed(h) && p.tagId in h.sessions
    ensures var r := Touch(EnforceTotal(cfg, TakeCycles(cfg, h, p)), p.tagId, now);
      && p.tagId in r.sessions && r.log == h.log
      && var gained := |r.sessions[p.tagId].accepted| - |h.sessions[p.tagId].accepted|;
         && r.stats.published == h.stats.published + gained && r.stats.late == h.stats.late + |p.cycles| - gained
         && r.stats.stale == h.stats.stale
  {
    TakenCounts(cfg, h, p);
    TotalStands(cfg, TakeCycles(cfg, h, p));
    hide TakeCycles, EnforceTotal;
  }

  lemma TakenCounts(cfg: Config, h: Hub, p: TelemetryPacket)
    requires p.tagId in h.sessions
    ensures var r := TakeCycles(cfg, h, p);
      && p.tagId in r.sessions && r.log == h.log
      && var gained := |r.sessions[p.tagId].accepted| - |h.sessions[p.tagId].accepted|;
         && r.stats.published == h.stats.published + gained && r.stats.late == h.stats.late + |p.cycles| - gained
         && r.stats.stale == h.stats.stale
  {
    TrimmedStands(cfg, AcceptAll(h.sessions[p.tagId], p.cycles));
    hide Trimmed, AcceptAll, TrimCount;
  }

  lemma LastIsKept(boots: seq<int>, bootId: int)
    ensures bootId in LastOf(boots + [bootId], ENDED_BOOTS_PER_TAG)
  {
    var all := boots + [bootId];
    var kept := LastOf(all, ENDED_BOOTS_PER_TAG);
    assert kept[|kept| - 1] == all[|all| - 1];
  }

  /** A session ends at a tick exactly when its tag has been silent for the timeout since its last packet. */
  lemma SilenceEnds(cfg: Config, h: Hub, p: TelemetryPacket, before: real, now: real)
    requires WellFormed(h) && p.bootId !in EndedOf(h, p.tagId) && !p.Last()
    ensures var r := Tick(cfg, Publish(cfg, h, p, before), now);
      p.tagId in r.sessions && (r.sessions[p.tagId].active <==> now - before < cfg.sessionTimeout)
  {
    PublishDoes(cfg, h, p, before);
    TickDoes(cfg, Publish(cfg, h, p, before), now);
    hide Publish, Tick;
  }

  /** After a boot's last packet its later packets change nothing but the count of stale cycles. */
  lemma EndedBootIsRefused(cfg: Config, h: Hub, p: TelemetryPacket, before: real, again: TelemetryPacket, now: real)
    requires WellFormed(h) && p.bootId !in EndedOf(h, p.tagId) && p.Last()
    requires again.tagId == p.tagId && again.bootId == p.bootId
    ensures var ended := Publish(cfg, h, p, before);
      Publish(cfg, ended, again, now)
        == ended.(stats := ended.stats.(stale := ended.stats.stale + |again.cycles|))
  {
    PublishDoes(cfg, h, p, before);
    hide SessionFor, Absorb;
  }

  /** A boot is forgotten only after eight more ends: each end moves it one place towards the front at most. */
  lemma ForgottenLast(boots: seq<int>, i: nat, next: int)
    requires i < |boots| <= ENDED_BOOTS_PER_TAG
    ensures var kept := LastOf(boots + [next], ENDED_BOOTS_PER_TAG);
      && |kept| <= ENDED_BOOTS_PER_TAG
      && (i > 0 || |boots| < ENDED_BOOTS_PER_TAG ==>
            var j := if |boots| < ENDED_BOOTS_PER_TAG then i else i - 1;
            j < |kept| && kept[j] == boots[i])
  {}

  /** A session that timed out goes on when its boot comes back: no boot is remembered as ended, nothing starts over. */
  lemma TimedOutResumes(cfg: Config, h: Hub, before: real, p: TelemetryPacket, now: real)
    requires WellFormed(h) && p.tagId in h.sessions && p.bootId == h.sessions[p.tagId].bootId
    requires p.bootId !in EndedOf(h, p.tagId)
    ensures var s, r := h.sessions[p.tagId], Publish(cfg, Tick(cfg, h, before), p, now);
      && p.tagId in r.sessions
      && r.sessions[p.tagId].since == s.since && s.accepted <= r.sessions[p.tagId].accepted
      && r.sessions[p.tagId].active == !p.Last()
  {
    var ticked := Tick(cfg, h, before);
    TickDoes(cfg, h, before);
    TickForgetsNothing(cfg, h, before, |h.order|);
    hide Tick;
    PublishDoes(cfg, ticked, p, now);
    hide Publish;
  }

  lemma {:induction false} TickForgetsNothing(cfg: Config, h: Hub, now: real, n: nat)
    requires WellFormed(h) && n <= |h.order|
    ensures TickUpTo(cfg, h, now, n).endedBoots == h.endedBoots
  {
    hide TickOne;
    if n > 0 {
      TickForgetsNothing(cfg, h, now, n - 1);
      TickOneForgetsNothing(cfg, TickUpTo(cfg, h, now, n - 1), h.order[n - 1], now);
    }
  }

  lemma TickOneForgetsNothing(cfg: Config, h: Hub, t: int, now: real)
    requires t in h.sessions
    ensures TickOne(cfg, h, t, now).endedBoots == h.endedBoots
  {
    hide Flush, End;
    FlushTouchesOne(h, t);
    EndTouchesOne(Flush(h, t), t, Timeout);
  }
}
