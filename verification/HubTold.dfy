/** What the viewers of a tag have been told of its session, and what a hello makes known, in every run. */
module HubTold {
  import opened Prelude
  import opened Packets
  import opened LiveTypes
  import opened LiveSessions
  import opened HubStates
  import opened HubSteps

  /** The revision in the last start or info frame of a tag. */
  function LastRev(log: seq<Sent>, t: int): Option<Option<int>> {
    if log == [] then None
    else
      var x := log[|log| - 1];
      if x.tagId == t && (x.frame.SessionStart? || x.frame.SessionInfo?) then Some(x.frame.configRev)
      else LastRev(log[..|log| - 1], t)
  }

  predicate Identifies(f: Frame) {
    f.Append? || f.SessionStart? || f.SessionEnd? || f.SessionInfo?
  }

  /** The identity in the last frame of a tag. */
  function LastId(log: seq<Sent>, t: int): Option<Identity> {
    if log == [] then None
    else
      var x := log[|log| - 1];
      if x.tagId == t && Identifies(x.frame) then Some(x.frame.id) else LastId(log[..|log| - 1], t)
  }

  lemma SaidLast(log: seq<Sent>, x: Sent, t: int)
    ensures LastRev(log + [x], t)
         == if x.tagId == t && (x.frame.SessionStart? || x.frame.SessionInfo?) then Some(x.frame.configRev) else LastRev(log, t)
    ensures LastId(log + [x], t) == if x.tagId == t && Identifies(x.frame) then Some(x.frame.id) else LastId(log, t)
  {
    assert (log + [x])[..|log|] == log;
  }

  /** The last revision told is the session's; once it has ended, so is the last identity, stored id included. */
  ghost predicate Told(log: seq<Sent>, t: int, s: Session) {
    && LastRev(log, t) == Some(s.configRev)
    && (!s.active ==> LastId(log, t) == Some(Identity(s.sessionId, t, s.bootId)))
  }

  /** The session has what the hello remembered of its boot told. */
  ghost predicate Greeted(hello: map<(int, int), Hello>, t: int, s: Session) {
    var key := (t, s.bootId);
    key in hello ==>
      && s.sessionId == Some(hello[key].sessionId)
      && (hello[key].configRev.Some? ==> s.configRev == hello[key].configRev)
  }

  ghost predicate AllTold(h: Hub) {
    forall t :: t in h.sessions ==> h.sessions[t].tagId == t && Told(h.log, t, h.sessions[t])
  }

  ghost predicate AllGreeted(h: Hub) {
    forall t :: t in h.sessions ==> Greeted(h.hello, t, h.sessions[t])
  }

  /** Described alike, whatever else became of it. */
  ghost predicate SameSaid(r: Session, s: Session) {
    && r.tagId == s.tagId && r.bootId == s.bootId && r.sessionId == s.sessionId && r.configRev == s.configRev
    && (s.active == r.active)
  }

  ghost predicate Quiet(h: Hub, r: Hub) {
    && r.log == h.log && r.hello == h.hello
    && forall t :: t in r.sessions ==> t in h.sessions && SameSaid(r.sessions[t], h.sessions[t])
  }

  lemma QuietTold(h: Hub, r: Hub)
    requires AllTold(h) && AllGreeted(h) && Quiet(h, r)
    ensures AllTold(r) && AllGreeted(r)
  {
    hide LastRev, LastId;
  }

  /** A broadcast for the tag whose session alone differs, true of what that session now is. */
  ghost predicate TrueFrame(h: Hub, g: Hub, t: int, f: Frame) {
    && t in g.sessions && g.log == h.log && g.sessions[t].tagId == t
    && (forall u :: u in g.sessions && u != t ==> u in h.sessions && g.sessions[u] == h.sessions[u])
    && Identifies(f) && f.id == IdentityOf(g.sessions[t])
    && (if f.SessionStart? || f.SessionInfo? then f.configRev == g.sessions[t].configRev
        else t in h.sessions && g.sessions[t].configRev == h.sessions[t].configRev)
  }

  lemma BroadcastTold(h: Hub, g: Hub, t: int, f: Frame)
    requires AllTold(h) && TrueFrame(h, g, t, f)
    ensures AllTold(Broadcast(g, t, f))
    ensures Broadcast(g, t, f).hello == g.hello && Broadcast(g, t, f).sessions == g.sessions
  {
    hide LastRev, LastId, Deliver;
    var r := Broadcast(g, t, f);
    forall u | u in r.sessions ensures r.sessions[u].tagId == u && Told(r.log, u, r.sessions[u]) {
      SaidLast(h.log, Sent(t, f), u);
    }
  }

  // ---------------------------------------------------------------- each operation

  lemma FlushTold(h: Hub, t: int)
    requires AllTold(h) && AllGreeted(h) && t in h.sessions
    ensures var r := Flush(h, t);
      && AllTold(r) && AllGreeted(r) && r.hello == h.hello && t in r.sessions && SameSaid(r.sessions[t], h.sessions[t])
  {
    hide LastRev, LastId, Broadcast;
    var s := h.sessions[t];
    if s.pending != [] {
      BroadcastTold(h, h.(sessions := h.sessions[t := Flushed(s)]), t, Append(IdentityOf(s), s.pending));
    }
  }

  lemma CloseTold(h: Hub, t: int, reason: EndReason)
    requires AllTold(h) && AllGreeted(h) && t in h.sessions
    ensures var r := Close(h, t, reason); AllTold(r) && AllGreeted(r) && r.hello == h.hello
  {
    hide LastRev, LastId, Broadcast;
    var s := h.sessions[t];
    if s.active {
      BroadcastTold(h, h.(sessions := h.sessions[t := s.(active := false)]), t, SessionEnd(IdentityOf(s), reason));
    }
  }

  lemma EndTold(h: Hub, t: int, reason: EndReason)
    requires AllTold(h) && AllGreeted(h) && t in h.sessions
    ensures var r := End(h, t, reason); AllTold(r) && AllGreeted(r) && r.hello == h.hello
  {
    hide AllTold, AllGreeted, Flush, Close, SameSaid;
    FlushTold(h, t);
    var flushed := Flush(h, t);
    var remembered := if reason.Timeout? then flushed else RememberEnded(flushed, t, h.sessions[t].bootId);
    EndedTold(flushed, remembered);
    CloseTold(remembered, t, reason);
  }

  lemma EndedTold(h: Hub, r: Hub)
    requires AllTold(h) && AllGreeted(h) && r == h.(endedBoots := r.endedBoots)
    ensures AllTold(r) && AllGreeted(r)
  {
    hide LastRev, LastId;
  }

  lemma StartTold(h: Hub, t: int, bootId: int, now: real)
    requires AllTold(h) && AllGreeted(h)
    ensures var r := Start(h, t, bootId, now); AllTold(r) && AllGreeted(r) && r.hello == h.hello
  {
    hide LastRev, LastId, Broadcast;
    var s := Opening(h, t, bootId, now);
    BroadcastTold(h, Register(h, s), t, StartFrame(s));
  }

  lemma ResumeTold(h: Hub, t: int)
    requires AllTold(h) && AllGreeted(h) && t in h.sessions
    ensures var r := Resume(h, t); AllTold(r) && AllGreeted(r) && r.hello == h.hello
  {
    hide LastRev, LastId, Broadcast;
    var s := h.sessions[t].(active := true);
    BroadcastTold(h, h.(sessions := h.sessions[t := s]), t, StartFrame(s));
  }

  lemma SessionForTold(h: Hub, p: TelemetryPacket, now: real)
    requires AllTold(h) && AllGreeted(h)
    ensures var r := SessionFor(h, p, now); AllTold(r) && AllGreeted(r) && r.hello == h.hello
  {
    hide AllTold, AllGreeted, Start, End, Resume;
    if p.tagId !in h.sessions {
      StartTold(h, p.tagId, p.bootId, now);
    } else if h.sessions[p.tagId].bootId != p.bootId {
      EndTold(h, p.tagId, Replaced);
      StartTold(End(h, p.tagId, Replaced), p.tagId, p.bootId, now);
    } else if !h.sessions[p.tagId].active {
      ResumeTold(h, p.tagId);
    }
  }

  lemma TakenTold(cfg: Config, h: Hub, p: TelemetryPacket)
    requires p.tagId in h.sessions && AllTold(h) && AllGreeted(h)
    ensures var r := TakeCycles(cfg, h, p); AllTold(r) && AllGreeted(r) && r.hello == h.hello
  {
    hide Trimmed, AcceptAll, TrimCount, AllTold, AllGreeted;
    TakenStands(cfg, h, p);
    QuietTold(h, TakeCycles(cfg, h, p));
  }

  lemma TotalTold(cfg: Config, h: Hub)
    requires WellFormed(h) && AllTold(h) && AllGreeted(h)
    ensures var r := EnforceTotal(cfg, h); AllTold(r) && AllGreeted(r) && r.hello == h.hello
  {
    hide Enforce, TotalCycles, AllTold, AllGreeted;
    TotalStands(cfg, h);
    QuietTold(h, EnforceTotal(cfg, h));
  }

  lemma TouchTold(h: Hub, t: int, now: real)
    requires t in h.sessions && AllTold(h) && AllGreeted(h)
    ensures var r := Touch(h, t, now); AllTold(r) && AllGreeted(r) && r.hello == h.hello
  {
    hide AllTold, AllGreeted;
    QuietTold(h, Touch(h, t, now));
  }

  lemma AbsorbTold(cfg: Config, h: Hub, p: TelemetryPacket, now: real)
    requires WellFormed(h) && p.tagId in h.sessions && AllTold(h) && AllGreeted(h)
    ensures var r := Absorb(cfg, h, p, now); AllTold(r) && AllGreeted(r) && r.hello == h.hello
  {
    hide AllTold, AllGreeted, TakeCycles, EnforceTotal, Touch, End, WellFormed;
    TakenTold(cfg, h, p);
    TotalTold(cfg, TakeCycles(cfg, h, p));
    TouchTold(EnforceTotal(cfg, TakeCycles(cfg, h, p)), p.tagId, now);
    var touched := Touch(EnforceTotal(cfg, TakeCycles(cfg, h, p)), p.tagId, now);
    if p.Last() {
      EndTold(touched, p.tagId, TagEnd);
    }
  }

  lemma PublishTold(cfg: Config, h: Hub, p: TelemetryPacket, now: real)
    requires WellFormed(h) && AllTold(h) && AllGreeted(h)
    ensures var r := Publish(cfg, h, p, now); AllTold(r) && AllGreeted(r) && r.hello == h.hello
  {
    hide AllTold, AllGreeted, SessionFor, Absorb, WellFormed;
    if p.bootId in EndedOf(h, p.tagId) {
      StaleTold(h, Publish(cfg, h, p, now));
    } else {
      SessionForTold(h, p, now);
      AbsorbTold(cfg, SessionFor(h, p, now), p, now);
    }
  }

  lemma StaleTold(h: Hub, r: Hub)
    requires AllTold(h) && AllGreeted(h) && r == h.(stats := r.stats)
    ensures AllTold(r) && AllGreeted(r)
  {
    hide AllTold, AllGreeted;
    QuietTold(h, r);
  }

  lemma TickOneTold(cfg: Config, h: Hub, t: int, now: real)
    requires AllTold(h) && AllGreeted(h) && t in h.sessions
    ensures var r := TickOne(cfg, h, t, now); AllTold(r) && AllGreeted(r)
  {
    hide AllTold, AllGreeted, Flush, End, SameSaid;
    FlushTold(h, t);
    EndTold(Flush(h, t), t, Timeout);
  }

  lemma {:induction false} TickTold(cfg: Config, h: Hub, now: real, n: nat)
    requires WellFormed(h) && n <= |h.order| && AllTold(h) && AllGreeted(h)
    ensures var r := TickUpTo(cfg, h, now, n); AllTold(r) && AllGreeted(r)
  {
    hide AllTold, AllGreeted, TickOne;
    if n > 0 {
      TickTold(cfg, h, now, n - 1);
      TickOneTold(cfg, TickUpTo(cfg, h, now, n - 1), h.order[n - 1], now);
    }
  }

  // ---------------------------------------------------------------- hellos

  lemma {:induction false} RemovedGone(keys: seq<(int, int)>, key: (int, int))
    ensures key !in Removed(keys, key) && |Removed(keys, key)| <= |keys|
  {
    if keys != [] {
      RemovedGone(keys[1..], key);
    }
  }

  /** Forgetting keeps the newest entry, changes none, and forgets none while there is room. */
  lemma {:induction false} ForgetKeeps(order: seq<(int, int)>, hello: map<(int, int), Hello>, key: (int, int))
    requires order != [] && order[|order| - 1] == key && key !in order[..|order| - 1] && key in hello
    ensures var kept := Forget(order, hello).1;
      && key in kept && (forall k :: k in kept ==> k in hello && kept[k] == hello[k])
      && (|order| <= HELLO_MEMORY ==> kept == hello)
    decreases |order|
  {
    if |order| > HELLO_MEMORY {
      assert order[0] in order[..|order| - 1];
      var rest := order[1..];
      assert rest[..|rest| - 1] == order[..|order| - 1][1..];
      ForgetKeeps(rest, hello - {order[0]}, key);
    }
  }

  /**
   * A hello is remembered, with the revision known before when it tells none; of the others some may be forgotten, but
   * none while there is room.
   */
  lemma HelloRemembered(h: Hub, t: int, bootId: int, sessionId: int, configRev: Option<int>)
    ensures var r, key := NoteHello(h, t, bootId, sessionId, configRev), (t, bootId);
      && key in r.hello && r.hello[key].sessionId == sessionId
      && r.hello[key].configRev == (if configRev.Some? then configRev
                                    else if key in h.hello then h.hello[key].configRev else None)
      && (forall k :: k in r.hello && k != key ==> k in h.hello && r.hello[k] == h.hello[k])
      && (|h.helloOrder| < HELLO_MEMORY ==> forall k :: k in h.hello ==> k in r.hello)
  {
    hide Removed, Forget, Deliver;
    var key := (t, bootId);
    RemovedGone(h.helloOrder, key);
    var order := Removed(h.helloOrder, key) + [key];
    assert order[..|order| - 1] == Removed(h.helloOrder, key);
    ForgetKeeps(order, h.hello[key := Hello(sessionId, KnownRev(h, key, configRev))], key);
  }

  lemma TellTold(h: Hub, t: int, bootId: int, sessionId: int, rev: Option<int>)
    requires AllTold(h)
    ensures AllTold(Tell(h, t, bootId, sessionId, rev))
  {
    hide LastRev, LastId, Broadcast;
    if t in h.sessions && h.sessions[t].bootId == bootId {
      var s := h.sessions[t];
      var newRev := rev.Some? && rev != s.configRev;
      var informed := s.(sessionId := Some(sessionId), configRev := if newRev then rev else s.configRev);
      var g := h.(sessions := h.sessions[t := informed]);
      if newRev && s.active {
        BroadcastTold(h, g, t, StartFrame(informed));
      } else if (newRev || s.sessionId != Some(sessionId)) && !s.active {
        BroadcastTold(h, g, t, InfoFrame(informed));
      }
    }
  }

  lemma TellSessions(h: Hub, t: int, bootId: int, sessionId: int, rev: Option<int>)
    ensures var r := Tell(h, t, bootId, sessionId, rev);
      && r.hello == h.hello
      && if t !in h.sessions || h.sessions[t].bootId != bootId then r.sessions == h.sessions
         else
           var s := h.sessions[t];
           r.sessions == h.sessions[t := s.(sessionId := Some(sessionId), configRev := if rev.Some? then rev else s.configRev)]
  {
    hide ToldViewers;
    if t in h.sessions && h.sessions[t].bootId == bootId {
      var s := h.sessions[t];
      var newRev := rev.Some? && rev != s.configRev;
      var informed := s.(sessionId := Some(sessionId), configRev := if newRev then rev else s.configRev);
      TellingChangesNothing(h.(sessions := h.sessions[t := informed]), t, newRev, s.sessionId != Some(sessionId));
    }
  }

  lemma TellSays(h: Hub, t: int, bootId: int, sessionId: int, rev: Option<int>)
    ensures var r := Tell(h, t, bootId, sessionId, rev);
      && r.hello == h.hello
      && (forall u :: u in r.sessions ==> u in h.sessions && r.sessions[u].bootId == h.sessions[u].bootId)
      && (forall u :: u in r.sessions && (u != t || h.sessions[u].bootId != bootId) ==> r.sessions[u] == h.sessions[u])
      && (t in r.sessions && r.sessions[t].bootId == bootId ==>
            r.sessions[t].sessionId == Some(sessionId) && (rev.Some? ==> r.sessions[t].configRev == rev))
  {
    hide Tell;
    TellSessions(h, t, bootId, sessionId, rev);
  }

  lemma TellingChangesNothing(h: Hub, t: int, newRev: bool, changed: bool)
    requires t in h.sessions
    ensures var r := ToldViewers(h, t, newRev, changed); r.sessions == h.sessions && r.hello == h.hello
  {}

  lemma NoteHelloTold(h: Hub, t: int, bootId: int, sessionId: int, configRev: Option<int>)
    requires AllTold(h) && AllGreeted(h)
    ensures var r := NoteHello(h, t, bootId, sessionId, configRev); AllTold(r) && AllGreeted(r)
  {
    var rev := KnownRev(h, (t, bootId), configRev);
    var g := Remember(h, (t, bootId), Hello(sessionId, rev));
    assert AllTold(g) by {
      hide LastRev, LastId, Forget, Removed;
    }
    TellTold(g, t, bootId, sessionId, rev);
    HelloRemembered(h, t, bootId, sessionId, configRev);
    TellSays(g, t, bootId, sessionId, rev);
    hide AllTold, Tell, Remember;
  }

  lemma NoteSessionTold(h: Hub, t: int, bootId: int, sessionId: int)
    requires AllTold(h) && AllGreeted(h)
    ensures var r := NoteSession(h, t, bootId, sessionId); AllTold(r) && AllGreeted(r)
  {
    hide LastRev, LastId, Broadcast;
    if t in h.sessions && h.sessions[t].bootId == bootId && h.sessions[t].sessionId.None? {
      var s := h.sessions[t].(sessionId := Some(sessionId));
      var stored := h.(sessions := h.sessions[t := s]);
      assert Greeted(h.hello, t, h.sessions[t]);
      if !s.active {
        BroadcastTold(h, stored, t, InfoFrame(s));
      }
    }
  }

  lemma {:induction false} NoteSessionsTold(h: Hub, items: seq<((int, int), int)>)
    requires AllTold(h) && AllGreeted(h)
    ensures var r := NoteSessions(h, items); AllTold(r) && AllGreeted(r)
  {
    hide AllTold, AllGreeted, NoteSession;
    if items != [] {
      var last := items[|items| - 1];
      NoteSessionsTold(h, items[..|items| - 1]);
      NoteSessionTold(NoteSessions(h, items[..|items| - 1]), last.0.0, last.0.1, last.1);
    }
  }

  // ---------------------------------------------------------------- every run

  lemma HandleTold(cfg: Config, h: Hub, e: Event)
    requires WellFormed(h) && AllTold(h) && AllGreeted(h)
    ensures AllTold(Handle(cfg, h, e)) && AllGreeted(Handle(cfg, h, e))
  {
    hide Publish, Tick, NoteHello, NoteSessions, Connect, Disconnect, Subscribe, Unsubscribe;
    match e
    case Published(packet, now) => PublishTold(cfg, h, packet, now);
    case Ticked(now) => TickIsWhole(cfg, h, now);
    case HelloNoted(tagId, bootId, sessionId, configRev) => NoteHelloTold(h, tagId, bootId, sessionId, configRev);
    case SessionsNoted(items) => NoteSessionsTold(h, items);
    case _ => ConnectionsTold(cfg, h, e);
  }

  lemma TickIsWhole(cfg: Config, h: Hub, now: real)
    requires WellFormed(h) && AllTold(h) && AllGreeted(h)
    ensures AllTold(Tick(cfg, h, now)) && AllGreeted(Tick(cfg, h, now))
  {
    hide AllTold, AllGreeted, TickUpTo;
    TickTold(cfg, h, now, |h.order|);
  }

  lemma ConnectionsTold(cfg: Config, h: Hub, e: Event)
    requires WellFormed(h) && AllTold(h) && AllGreeted(h)
    requires !e.Published? && !e.Ticked? && !e.HelloNoted? && !e.SessionsNoted?
    ensures AllTold(Handle(cfg, h, e)) && AllGreeted(Handle(cfg, h, e))
  {
    hide LastRev, LastId, SnapshotOf;
    QuietTold(h, Handle(cfg, h, e));
  }

  /**
   * In every run, the last revision a tag's viewers were told is its session's, also after it ended; once it has ended,
   * the last identity told, with the stored id, is its own; and a session has what the hello remembered of it said.
   */
  lemma {:induction false} ViewersAreTold(cfg: Config, events: seq<Event>)
    ensures var h := Run(cfg, events);
      forall t :: t in h.sessions ==>
        && LastRev(h.log, t) == Some(h.sessions[t].configRev)
        && (!h.sessions[t].active ==> LastId(h.log, t) == Some(Identity(h.sessions[t].sessionId, t, h.sessions[t].bootId)))
        && Greeted(h.hello, t, h.sessions[t])
    ensures AllTold(Run(cfg, events)) && AllGreeted(Run(cfg, events))
  {
    if events != [] {
      ViewersAreTold(cfg, events[..|events| - 1]);
      HandleTold(cfg, Run(cfg, events[..|events| - 1]), events[|events| - 1]);
    }
    hide Handle, LastRev, LastId;
  }

  /** What a hello told is what the session of its boot shows from the next packet on. */
  lemma HelloReachesViewers(cfg: Config, events: seq<Event>, p: TelemetryPacket, now: real, sessionId: int, rev: int)
    requires p.bootId !in EndedOf(Run(cfg, events), p.tagId)
    ensures var h := Publish(cfg, NoteHello(Run(cfg, events), p.tagId, p.bootId, sessionId, Some(rev)), p, now);
      && p.tagId in h.sessions && h.sessions[p.tagId].bootId == p.bootId
      && h.sessions[p.tagId].sessionId == Some(sessionId) && h.sessions[p.tagId].configRev == Some(rev)
      && LastRev(h.log, p.tagId) == Some(Some(rev))
  {
    var h := Run(cfg, events);
    ViewersAreTold(cfg, events);
    HelloRemembered(h, p.tagId, p.bootId, sessionId, Some(rev));
    NoteHelloTold(h, p.tagId, p.bootId, sessionId, Some(rev));
    NoteHelloEndsNothing(h, p.tagId, p.bootId, sessionId, Some(rev));
    hide Run, NoteHello, Publish, LastRev, LastId;
    var g := NoteHello(h, p.tagId, p.bootId, sessionId, Some(rev));
    PublishTold(cfg, g, p, now);
    PublishDoes(cfg, g, p, now);
  }

  lemma NoteHelloEndsNothing(h: Hub, t: int, bootId: int, sessionId: int, configRev: Option<int>)
    ensures NoteHello(h, t, bootId, sessionId, configRev).endedBoots == h.endedBoots
  {
    hide Forget, Removed, Deliver;
  }

  /**
   * A hello sends the viewers of a tag one frame when what they were last told no longer describes its session, the
   * stored id included once it has ended; otherwise, or for another boot, it sends nothing.
   */
  lemma HelloTellsOnlyNews(cfg: Config, events: seq<Event>, t: int, bootId: int, sessionId: int, configRev: Option<int>)
    ensures var h := Run(cfg, events);
      var r := NoteHello(h, t, bootId, sessionId, configRev);
      if t in h.sessions && h.sessions[t].bootId == bootId then
        && t in r.sessions
        && var s := r.sessions[t];
           var described := LastRev(h.log, t) == Some(s.configRev)
                            && (s.active || LastId(h.log, t) == Some(Identity(s.sessionId, t, bootId)));
           h.log <= r.log && |r.log| == |h.log| + if described then 0 else 1
      else r.log == h.log
  {
    ViewersAreTold(cfg, events);
    var h := Run(cfg, events);
    hide Run, LastRev, LastId, Forget, Removed;
    if t in h.sessions {
      assert Told(h.log, t, h.sessions[t]);
    }
    var rev := KnownRev(h, (t, bootId), configRev);
    var g := Remember(h, (t, bootId), Hello(sessionId, rev));
    RememberedOnly(h, (t, bootId), Hello(sessionId, rev));
    hide Remember, AllTold, AllGreeted;
    TellLog(g, t, bootId, sessionId, rev);
    TellSessions(g, t, bootId, sessionId, rev);
  }

  lemma RememberedOnly(h: Hub, key: (int, int), info: Hello)
    ensures var r := Remember(h, key, info); r.sessions == h.sessions && r.log == h.log
  {
    hide Forget, Removed;
  }

  lemma TellLog(h: Hub, t: int, bootId: int, sessionId: int, rev: Option<int>)
    ensures var r := Tell(h, t, bootId, sessionId, rev);
      if t in h.sessions && h.sessions[t].bootId == bootId then
        var s := h.sessions[t];
        var newRev, changed := rev.Some? && rev != s.configRev, s.sessionId != Some(sessionId);
        h.log <= r.log && |r.log| == |h.log| + if newRev || (changed && !s.active) then 1 else 0
      else r.log == h.log
  {
    hide Deliver;
  }

  /** The store's ids fill in what is missing, the first for a boot, and change nothing else of a session. */
  lemma {:induction false} StoredIdsFillIn(h: Hub, items: seq<((int, int), int)>, t: int)
    requires t in h.sessions
    ensures var s, r := h.sessions[t], NoteSessions(h, items);
      && t in r.sessions && r.sessions[t] == s.(sessionId := r.sessions[t].sessionId)
      && (s.sessionId.Some? || (forall i :: 0 <= i < |items| ==> items[i].0 != (t, s.bootId)) ==> r.sessions[t] == s)
      && (s.sessionId.None? ==>
            forall i :: 0 <= i < |items| && items[i].0 == (t, s.bootId) && (forall j :: 0 <= j < i ==> items[j].0 != (t, s.bootId)) ==>
              r.sessions[t].sessionId == Some(items[i].1))
  {
    hide NoteSession;
    if items != [] {
      var k := |items| - 1;
      StoredIdsFillIn(h, items[..k], t);
      IdFillsIn(NoteSessions(h, items[..k]), items[k].0.0, items[k].0.1, items[k].1, t);
      assert forall i :: 0 <= i < k ==> items[..k][i] == items[i];
    }
  }

  lemma IdFillsIn(h: Hub, tagId: int, bootId: int, sessionId: int, t: int)
    requires t in h.sessions
    ensures var s, r := h.sessions[t], NoteSession(h, tagId, bootId, sessionId);
      && t in r.sessions
      && r.sessions[t] == if (tagId, bootId) == (t, s.bootId) && s.sessionId.None? then s.(sessionId := Some(sessionId)) else s
  {
    hide Broadcast;
    if tagId in h.sessions {
      var stored := h.sessions[tagId].(sessionId := Some(sessionId));
      BroadcastKeeps(h.(sessions := h.sessions[tagId := stored]), tagId, InfoFrame(stored));
    }
  }

  lemma BroadcastKeeps(h: Hub, t: int, f: Frame)
    ensures Broadcast(h, t, f).sessions == h.sessions
  {}
}
