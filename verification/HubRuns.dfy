/** Each public method keeps the hub's invariant, so every run does. */
module HubRuns {
  import opened Prelude
  import opened Packets
  import opened LiveTypes
  import opened LiveSessions
  import opened Queues
  import opened QueueHistory
  import opened HubStates
  import opened HubInvariants

  /** The invariant looks at sessions, log and queues only. */
  lemma OtherFields(h: Hub, r: Hub)
    requires HubOk(h)
    requires r.order == h.order && r.sessions == h.sessions && r.past == h.past
    requires r.subs == h.subs && r.joined == h.joined && r.log == h.log
    ensures HubOk(r)
  {
    hide TagOk, ConnOk, Inv;
    forall t ensures TagOk(r.log, t, LineOf(r, t)) {
      assert TagOk(h.log, t, LineOf(h, t));
    }
  }

  lemma SessionSound(h: Hub, t: int)
    requires HubOk(h) && t in h.sessions
    ensures Sound(h.sessions[t]) && h.sessions[t].tagId == t
  {
    assert TagOk(h.log, t, LineOf(h, t));
  }

  lemma FlushOk(h: Hub, t: int)
    requires HubOk(h) && t in h.sessions
    ensures HubOk(Flush(h, t))
    ensures var s, r := h.sessions[t], Flush(h, t).sessions[t];
      r.pending == [] && r.active == s.active && r.bootId == s.bootId && r.lastSeen == s.lastSeen
  {
    hide TagOk, ConnOk, Inv, Push, Sound;
    var s := h.sessions[t];
    SessionSound(h, t);
    if s.pending != [] {
      var f := Append(IdentityOf(s), s.pending);
      var g := h.(sessions := h.sessions[t := Flushed(s)]);
      assert TagOk(h.log, t, LineOf(h, t));
      TagFlush(h.log, t, s, PastOf(h, t));
      forall c | c in h.subs && h.subs[c].tagId == Some(t)
        ensures ConnOk(h.log + [Sent(t, f)], t, LineOf(g, t), Push(h.subs[c], f), h.joined[c])
      {
        ConnFlush(h.log, t, s, PastOf(h, t), h.subs[c], h.joined[c]);
      }
      PendingBounded(s);
      BroadcastStep(h, g, t, f);
    }
  }

  lemma PendingBounded(s: Session)
    requires Sound(s)
    ensures |s.pending| <= |s.accepted|
  {}

  /** Changing only what the invariant of a session does not constrain. */
  lemma SameHistory(s: Session, r: Session)
    requires Sound(s)
    requires r == s.(active := r.active, sessionId := r.sessionId, configRev := r.configRev, lastSeen := r.lastSeen)
    requires !r.active ==> s.pending == []
    ensures Later(s, r)
  {
    hide Chain, Suffix;
    assert CursorAtEnd(r);
  }

  lemma CloseOk(h: Hub, t: int, reason: EndReason)
    requires HubOk(h) && t in h.sessions && h.sessions[t].pending == []
    ensures HubOk(Close(h, t, reason)) && !Close(h, t, reason).sessions[t].active
  {
    hide Sound, TagsOk, ConnsOk, Broadcast;
    SessionSound(h, t);
    var s := h.sessions[t];
    if s.active {
      var r := s.(active := false);
      var g := h.(sessions := h.sessions[t := r]);
      SameHistory(s, r);
      ControlStepOk(h, g, t, SessionEnd(IdentityOf(s), reason));
      BroadcastSessions(g, t, SessionEnd(IdentityOf(s), reason));
    }
  }

  lemma BroadcastSessions(h: Hub, t: int, f: Frame)
    ensures Broadcast(h, t, f).sessions == h.sessions && Broadcast(h, t, f).order == h.order
  {}

  lemma EndOk(h: Hub, t: int, reason: EndReason)
    requires HubOk(h) && t in h.sessions
    ensures HubOk(End(h, t, reason)) && !End(h, t, reason).sessions[t].active
  {
    hide HubOk, Close, Flush;
    FlushOk(h, t);
    var flushed := Flush(h, t);
    var remembered := if reason.Timeout? then flushed else RememberEnded(flushed, t, h.sessions[t].bootId);
    OtherFields(flushed, remembered);
    CloseOk(remembered, t, reason);
  }

  lemma StartOk(h: Hub, t: int, bootId: int, now: real)
    requires HubOk(h) && (t in h.sessions ==> !h.sessions[t].active)
    ensures HubOk(Start(h, t, bootId, now))
    ensures t in Start(h, t, bootId, now).sessions && Start(h, t, bootId, now).sessions[t].active
  {
    hide TagOk, ConnOk, Inv, Push, Sound;
    var s := Opening(h, t, bootId, now);
    var g := Register(h, s);
    var f := StartFrame(s);
    assert TagOk(h.log, t, LineOf(h, t));
    TagStart(h.log, t, LineOf(h, t), s);
    forall c | c in h.subs && h.subs[c].tagId == Some(t)
      ensures ConnOk(h.log + [Sent(t, f)], t, LineOf(g, t), Push(h.subs[c], f), h.joined[c])
    {
      ConnStart(h.log, t, LineOf(h, t), s, h.subs[c], h.joined[c]);
    }
    BroadcastStep(h, g, t, f);
  }

  lemma ResumeOk(h: Hub, t: int)
    requires HubOk(h) && t in h.sessions
    ensures HubOk(Resume(h, t)) && Resume(h, t).sessions[t].active
  {
    hide Sound, TagsOk, ConnsOk, Broadcast;
    SessionSound(h, t);
    var s := h.sessions[t];
    var r := s.(active := true);
    SameHistory(s, r);
    ControlStepOk(h, h.(sessions := h.sessions[t := r]), t, StartFrame(r));
    BroadcastSessions(h.(sessions := h.sessions[t := r]), t, StartFrame(r));
  }

  lemma SessionForOk(h: Hub, p: TelemetryPacket, now: real)
    requires HubOk(h)
    ensures HubOk(SessionFor(h, p, now)) && SessionFor(h, p, now).sessions[p.tagId].active
  {
    hide HubOk, Start, End, Resume;
    if p.tagId !in h.sessions {
      StartOk(h, p.tagId, p.bootId, now);
    } else if h.sessions[p.tagId].bootId != p.bootId {
      EndOk(h, p.tagId, Replaced);
      StartOk(End(h, p.tagId, Replaced), p.tagId, p.bootId, now);
    } else if !h.sessions[p.tagId].active {
      ResumeOk(h, p.tagId);
    }
  }

  lemma TakenLater(cfg: Config, s: Session, cs: seq<CycleRecord>)
    requires Sound(s) && s.active
    ensures var r := Trimmed(cfg, AcceptAll(s, cs));
      Later(s, r) && r.batches == s.batches && r.active
  {
    hide Sound;
    AcceptAllSound(s, cs);
    TrimSound(AcceptAll(s, cs), cfg.maxBufferCycles, cfg.maxBufferRanges, cfg.retentionMs);
  }

  lemma TakeCyclesOk(cfg: Config, h: Hub, p: TelemetryPacket)
    requires HubOk(h) && p.tagId in h.sessions && h.sessions[p.tagId].active
    ensures HubOk(TakeCycles(cfg, h, p)) && TakeCycles(cfg, h, p).sessions[p.tagId].active
  {
    hide Sound, TagsOk, ConnsOk, Trimmed, AcceptAll, Later;
    SessionSound(h, p.tagId);
    TakenLater(cfg, h.sessions[p.tagId], p.cycles);
    QuietStep(h, TakeCycles(cfg, h, p), p.tagId);
  }

  lemma PopOk(h: Hub, t: int)
    requires HubOk(h) && t in h.sessions && h.sessions[t].cycles != []
    ensures HubOk(h.(sessions := h.sessions[t := PopOldest(h.sessions[t])]))
    ensures PopOldest(h.sessions[t]).active == h.sessions[t].active
  {
    hide TagsOk, ConnsOk, Sound, PopOldest, Settled;
    SessionSound(h, t);
    PopOldestSound(h.sessions[t]);
    QuietStep(h, h.(sessions := h.sessions[t := PopOldest(h.sessions[t])]), t);
  }

  /** Evicting from the ring buffers never shows in the log. */
  lemma {:induction false} EnforceOk(h: Hub, limit: nat)
    requires HubOk(h)
    ensures HubOk(h.(sessions := Enforce(h.order, h.sessions, limit)))
    ensures forall t :: t in h.sessions ==> Enforce(h.order, h.sessions, limit)[t].active == h.sessions[t].active
    decreases TotalCycles(h.order, h.sessions)
  {
    hide TagsOk, ConnsOk, Sound, PopOldest, TotalRanges;
    var v := Victim(h.order, h.sessions);
    if TotalRanges(h.order, h.sessions) > limit && v.Some? {
      var t := v.value;
      TotalsAfterPop(h.order, h.sessions, t);
      PopOk(h, t);
      EnforceOk(h.(sessions := h.sessions[t := PopOldest(h.sessions[t])]), limit);
    } else {
      OtherFields(h, h.(sessions := Enforce(h.order, h.sessions, limit)));
    }
  }

  lemma TouchOk(h: Hub, t: int, now: real)
    requires HubOk(h) && t in h.sessions
    ensures HubOk(Touch(h, t, now))
  {
    hide Sound, TagsOk, ConnsOk;
    SessionSound(h, t);
    var s := h.sessions[t];
    SameHistory(s, s.(lastSeen := now));
    SoundInactive(s);
    QuietStep(h, Touch(h, t, now), t);
  }

  lemma SoundInactive(s: Session)
    requires Sound(s)
    ensures !s.active ==> s.pending == []
  {}

  lemma PublishOk(cfg: Config, h: Hub, p: TelemetryPacket, now: real)
    requires HubOk(h)
    ensures HubOk(Publish(cfg, h, p, now))
  {
    if p.bootId in EndedOf(h, p.tagId) {
      OtherFields(h, Publish(cfg, h, p, now));
    } else {
      var found := SessionFor(h, p, now);
      SessionForOk(h, p, now);
      hide HubOk, SessionFor, TakeCycles, Enforce, Touch, End;
      TakeCyclesOk(cfg, found, p);
      var taken := TakeCycles(cfg, found, p);
      EnforceOk(taken, cfg.maxTotalRanges);
      var left := Enforce(taken.order, taken.sessions, cfg.maxTotalRanges);
      OtherFields(taken.(sessions := left), EnforceTotal(cfg, taken));
      TouchOk(EnforceTotal(cfg, taken), p.tagId, now);
      var touched := Touch(EnforceTotal(cfg, taken), p.tagId, now);
      if p.Last() {
        EndOk(touched, p.tagId, TagEnd);
      }
    }
  }

  lemma TickOneOk(cfg: Config, h: Hub, t: int, now: real)
    requires HubOk(h) && t in h.sessions
    ensures HubOk(TickOne(cfg, h, t, now))
  {
    hide HubOk, Flush, End;
    FlushOk(h, t);
    EndOk(Flush(h, t), t, Timeout);
  }

  lemma {:induction false} TickOk(cfg: Config, h: Hub, now: real, n: nat)
    requires HubOk(h) && n <= |h.order|
    ensures HubOk(TickUpTo(cfg, h, now, n))
  {
    hide TagsOk, ConnsOk, TickOne;
    if n > 0 {
      TickOk(cfg, h, now, n - 1);
      TickOneOk(cfg, TickUpTo(cfg, h, now, n - 1), h.order[n - 1], now);
    }
  }

  lemma TellOk(h: Hub, t: int, bootId: int, sessionId: int, rev: Option<int>)
    requires HubOk(h)
    ensures HubOk(Tell(h, t, bootId, sessionId, rev))
  {
    hide Sound, TagsOk, ConnsOk, Broadcast;
    if t in h.sessions && h.sessions[t].bootId == bootId {
      var s := h.sessions[t];
      var newRev := rev.Some? && rev != s.configRev;
      var informed := s.(sessionId := Some(sessionId), configRev := if newRev then rev else s.configRev);
      var stored := h.(sessions := h.sessions[t := informed]);
      SessionSound(h, t);
      SoundInactive(s);
      SameHistory(s, informed);
      if newRev && s.active {
        ControlStepOk(h, stored, t, StartFrame(informed));
      } else if (newRev || s.sessionId != Some(sessionId)) && !s.active {
        ControlStepOk(h, stored, t, InfoFrame(informed));
      } else {
        QuietStep(h, stored, t);
      }
    }
  }

  lemma NoteHelloOk(h: Hub, t: int, bootId: int, sessionId: int, configRev: Option<int>)
    requires HubOk(h)
    ensures HubOk(NoteHello(h, t, bootId, sessionId, configRev))
  {
    hide HubOk, Tell, Remember;
    var rev := KnownRev(h, (t, bootId), configRev);
    RememberKeeps(h, (t, bootId), Hello(sessionId, rev));
    OtherFields(h, Remember(h, (t, bootId), Hello(sessionId, rev)));
    TellOk(Remember(h, (t, bootId), Hello(sessionId, rev)), t, bootId, sessionId, rev);
  }

  lemma RememberKeeps(h: Hub, key: (int, int), info: Hello)
    ensures var r := Remember(h, key, info);
      r.order == h.order && r.sessions == h.sessions && r.past == h.past
      && r.subs == h.subs && r.joined == h.joined && r.log == h.log
  {}

  lemma NoteSessionOk(h: Hub, t: int, bootId: int, sessionId: int)
    requires HubOk(h)
    ensures HubOk(NoteSession(h, t, bootId, sessionId))
  {
    hide Sound, TagsOk, ConnsOk, Broadcast;
    if t in h.sessions && h.sessions[t].bootId == bootId && h.sessions[t].sessionId.None? {
      var s := h.sessions[t];
      var informed := s.(sessionId := Some(sessionId));
      var stored := h.(sessions := h.sessions[t := informed]);
      SessionSound(h, t);
      SoundInactive(s);
      SameHistory(s, informed);
      if s.active {
        QuietStep(h, stored, t);
      } else {
        ControlStepOk(h, stored, t, InfoFrame(informed));
      }
    }
  }

  lemma {:induction false} NoteSessionsOk(h: Hub, items: seq<((int, int), int)>)
    requires HubOk(h)
    ensures HubOk(NoteSessions(h, items))
  {
    hide HubOk, NoteSession;
    if items != [] {
      var last := items[|items| - 1];
      NoteSessionsOk(h, items[..|items| - 1]);
      NoteSessionOk(NoteSessions(h, items[..|items| - 1]), last.0.0, last.0.1, last.1);
    }
  }

  // ---------------------------------------------------------------- subscribing

  lemma {:induction false} RecentSelects(sent: seq<LiveCycle>, latest: int, historyMs: int)
    requires Increasing(sent)
    ensures Increasing(Recent(sent, latest, historyMs))
    ensures forall c :: c in Recent(sent, latest, historyMs) ==> c in sent
  {
    if sent != [] {
      var front := sent[..|sent| - 1];
      RecentSelects(front, latest, historyMs);
      assert sent == front + [sent[|sent| - 1]];
      forall c | c in Recent(front, latest, historyMs) ensures c.seqN < sent[|sent| - 1].seqN {
        var k :| 0 <= k < |front| && front[k] == c;
        assert sent[k] == c;
      }
    }
  }

  lemma SentPartIncreases(s: Session)
    requires Sound(s)
    ensures Increasing(SentPart(s))
    ensures 0 <= Settled(s) <= |s.accepted|
    ensures forall c :: c in SentPart(s) ==> c in s.accepted[..Settled(s)]
  {
    var n := |s.accepted| - |s.cycles|;
    var sent := SentPart(s);
    assert sent == s.accepted[n..Settled(s)];
    forall i, k | 0 <= i < k < |sent| ensures sent[i].seqN < sent[k].seqN {
      ChainIncreases(s.accepted, n + i, n + k);
    }
    assert forall i :: 0 <= i < |sent| ==> sent[i] == s.accepted[..Settled(s)][n + i];
  }

  lemma SubscribeJoint(h: Hub, t: int, historyMs: int)
    requires t in h.sessions && Sound(h.sessions[t])
    ensures Joint(h.log, t, h.sessions[t], JoinedNow(h, t, historyMs))
  {
    hide Sound, Recent, SentPart;
    var s := h.sessions[t];
    var sent := SentPart(s);
    SentPartIncreases(s);
    BatchBounds(s);
    RecentSelects(sent, if sent == [] then 0 else sent[|sent| - 1].tMs, historyMs);
    assert s.batches[|s.batches|..] == [];
    NothingYet(h.log, t);
  }

  /** Whoever subscribes now joins none of the sessions replaced before. */
  lemma SubscribePasts(h: Hub, t: int, historyMs: int)
    requires TagOk(h.log, t, LineOf(h, t))
    ensures PastsJoint(h.log, t, PastOf(h, t), JoinedNow(h, t, historyMs))
  {
    hide PastOk, Joint, SnapshotOf, FramesSince, PhaseOf, Sound, AppendsIn, Stretches;
  }

  lemma SubscribeConn(h: Hub, t: int, historyMs: int, q: Queue)
    requires TagOk(h.log, t, LineOf(h, t)) && Inv(q)
    ensures var j := JoinedNow(h, t, historyMs);
      ConnOk(h.log, t, LineOf(h, t), Reset(q, Some(t), Some(j.snapshot)), j)
  {
    SubscribePasts(h, t, historyMs);
    if t in h.sessions {
      SubscribeJoint(h, t, historyMs);
    }
    hide Push, Inv, TagOk, Joint, PastsJoint, SnapshotOf, NonErrors, FramesSince;
    var snapshot := SnapshotOf(h, t, historyMs);
    ResetTold(q, t, snapshot);
    NothingYet(h.log, t);
    assert [snapshot] + [] == [snapshot];
  }

  lemma ResetTold(q: Queue, t: int, f: Frame)
    requires !f.Error?
    ensures var r := Reset(q, Some(t), Some(f)); r.overflowed || NonErrors(r.pushed) == [f]
  {
    hide Push;
    PushedMore(Cleared(q, Some(t)), f);
    NonErrorsSnoc([], f);
    assert [] + [f] == [f];
  }

  lemma SubscribeOk(h: Hub, conn: nat, t: int, historyMs: int)
    requires HubOk(h) && conn in h.subs
    ensures HubOk(Subscribe(h, conn, t, historyMs))
  {
    hide TagOk, ConnOk, Inv, Push, SnapshotOf;
    var r := Subscribe(h, conn, t, historyMs);
    assert TagOk(h.log, t, LineOf(h, t));
    SubscribeConn(h, t, historyMs, h.subs[conn]);
    ResetInv(h.subs[conn], Some(t), Some(SnapshotOf(h, t, historyMs)));
    ResetTag(h.subs[conn], Some(t), Some(SnapshotOf(h, t, historyMs)));
    OnlyConn(h, r, conn);
  }

  lemma ResetTag(q: Queue, t: Option<int>, first: Option<Frame>)
    ensures Reset(q, t, first).tagId == t
  {
    if first.Some? {
      PushedMore(Cleared(q, t), first.value);
    }
  }

  /** Changing one connection's queue, to a state that agrees with the log. */
  lemma OnlyConn(h: Hub, r: Hub, conn: nat)
    requires HubOk(h) && r == h.(subs := r.subs, joined := r.joined) && conn in r.subs && conn in r.joined
    requires forall c :: c != conn && c in r.subs ==>
      c in h.subs && r.subs[c] == h.subs[c] && c in r.joined && (c in h.joined ==> r.joined[c] == h.joined[c])
    requires Inv(r.subs[conn])
    requires r.subs[conn].tagId.Some? ==>
      ConnOk(h.log, r.subs[conn].tagId.value, LineOf(h, r.subs[conn].tagId.value), r.subs[conn], r.joined[conn])
    ensures HubOk(r)
  {
    hide TagOk, ConnOk, Inv;
    forall u ensures TagOk(r.log, u, LineOf(r, u)) {
      assert TagOk(h.log, u, LineOf(h, u));
    }
    forall u: int ensures LineOf(r, u) == LineOf(h, u) {}
  }

  lemma RejectedConn(log: seq<Sent>, t: int, line: Line, q: Queue, j: Joined, detail: string)
    requires ConnOk(log, t, line, q, j)
    ensures ConnOk(log, t, line, Push(q, Error(detail)), j)
  {
    hide Push;
    PushedMore(q, Error(detail));
    PushWhenOverflowed(q, Error(detail));
    NonErrorsSnoc(q.pushed, Error(detail));
  }

  lemma RejectedOk(h: Hub, conn: nat, detail: string)
    requires HubOk(h) && conn in h.subs
    ensures HubOk(h.(subs := h.subs[conn := Push(h.subs[conn], Error(detail))]))
  {
    hide TagsOk, ConnOk, Inv, Push;
    var q := h.subs[conn];
    PushInv(q, Error(detail));
    PushedMore(q, Error(detail));
    if q.tagId.Some? {
      RejectedConn(h.log, q.tagId.value, LineOf(h, q.tagId.value), q, h.joined[conn], detail);
    }
    OnlyConn(h, h.(subs := h.subs[conn := Push(q, Error(detail))]), conn);
  }

  lemma TakenOk(h: Hub, conn: nat)
    requires HubOk(h) && conn in h.subs && !h.subs[conn].overflowed
    ensures HubOk(h.(subs := h.subs[conn := Pop(h.subs[conn]).0]))
  {
    hide TagsOk, Inv, Joint;
    PopInv(h.subs[conn]);
    OnlyConn(h, h.(subs := h.subs[conn := Pop(h.subs[conn]).0]), conn);
  }

  lemma ConnectionsOk(cfg: Config, h: Hub, e: Event)
    requires HubOk(h)
    requires e.Connected? || e.Disconnected? || e.Subscribed? || e.Unsubscribed? || e.Rejected? || e.Taken?
    ensures HubOk(Handle(cfg, h, e))
  {
    hide TagsOk, ConnOk, Inv, Subscribe, Push;
    match e
    case Connected(conn) =>
      if conn !in h.subs {
        FreshInv(cfg.subscriberMaxFrames);
        OnlyConn(h, Connect(cfg, h, conn), conn);
      }
    case Disconnected(conn) =>
      OtherConns(h, Disconnect(h, conn));
    case Subscribed(conn, t, historyMs) =>
      if conn in h.subs { SubscribeOk(h, conn, t, historyMs); }
    case Unsubscribed(conn) =>
      if conn in h.subs {
        ResetInv(h.subs[conn], None, None);
        OnlyConn(h, Unsubscribe(h, conn), conn);
      }
    case Rejected(conn, detail) =>
      if conn in h.subs { RejectedOk(h, conn, detail); }
    case Taken(conn) =>
      if conn in h.subs && !h.subs[conn].overflowed { TakenOk(h, conn); }
  }

  lemma OtherConns(h: Hub, r: Hub)
    requires HubOk(h) && r == h.(subs := r.subs)
    requires forall c :: c in r.subs ==> c in h.subs && r.subs[c] == h.subs[c]
    ensures HubOk(r)
  {
    hide TagOk, ConnOk, Inv;
    forall u ensures TagOk(r.log, u, LineOf(r, u)) {
      assert TagOk(h.log, u, LineOf(h, u));
    }
    forall u: int ensures LineOf(r, u) == LineOf(h, u) {}
  }

  lemma EmptyOk()
    ensures HubOk(EmptyHub)
  {}

  lemma HandleOk(cfg: Config, h: Hub, e: Event)
    requires HubOk(h)
    ensures HubOk(Handle(cfg, h, e))
  {
    hide HubOk, Publish, TickUpTo, NoteHello, NoteSessions;
    match e
    case Published(packet, now) => PublishOk(cfg, h, packet, now);
    case Ticked(now) => TickOk(cfg, h, now, |h.order|);
    case HelloNoted(t, bootId, sessionId, configRev) => NoteHelloOk(h, t, bootId, sessionId, configRev);
    case SessionsNoted(items) => NoteSessionsOk(h, items);
    case _ => ConnectionsOk(cfg, h, e);
  }

  lemma {:induction false} RunOk(cfg: Config, events: seq<Event>)
    ensures HubOk(Run(cfg, events))
  {
    hide HubOk, Handle;
    if events == [] {
      EmptyOk();
    } else {
      RunOk(cfg, events[..|events| - 1]);
      HandleOk(cfg, Run(cfg, events[..|events| - 1]), events[|events| - 1]);
    }
  }
}
