/** The live hub as a value: what each public method does to sessions, log and subscriber queues (live/hub.py). */
module HubStates {
  import opened Prelude
  import opened Packets
  import opened LiveTypes
  import opened LiveSessions
  import opened Queues

  const ENDED_BOOTS_PER_TAG: nat := 8
  const HELLO_MEMORY: nat := 256

  datatype Config = Config(
    retentionMs: nat, maxBufferCycles: nat, maxBufferRanges: nat, maxTotalRanges: nat,
    sessionTimeout: real, subscriberMaxFrames: nat)

  datatype Stats = Stats(published: int, late: int, stale: int, overflow: int)

  datatype Hello = Hello(sessionId: int, configRev: Option<int>)

  /** One broadcast. */
  datatype Sent = Sent(tagId: int, frame: Frame)

  /** History of a subscription: the log length, the snapshot, and how far the session then was. */
  datatype Joined = Joined(since: nat, snapshot: Frame, settled: int, batches: nat)

  /** History of a session another boot has replaced: what became of it, and how long the log then was. */
  datatype Past = Past(session: Session, until: nat)

  /** `order` is the insertion order of the `sessions` dictionary; `joined`, `log` and `past` are history. */
  datatype Hub = Hub(
    order: seq<int>, sessions: map<int, Session>, endedBoots: map<int, seq<int>>,
    helloOrder: seq<(int, int)>, hello: map<(int, int), Hello>,
    stats: Stats, subs: map<nat, Queue>, joined: map<nat, Joined>, log: seq<Sent>, past: map<int, seq<Past>>)

  /** The sessions of a tag that were replaced, oldest first. */
  function PastOf(h: Hub, tagId: int): seq<Past> {
    if tagId in h.past then h.past[tagId] else []
  }

  /** The dictionary's keys in insertion order, each bound to that tag's session. */
  predicate Tagged(order: seq<int>, sessions: map<int, Session>) {
    && Distinct(order)
    && (forall t :: t in sessions ==> t in order && sessions[t].tagId == t)
    && (forall t :: t in order ==> t in sessions)
  }

  predicate WellFormed(h: Hub) {
    Tagged(h.order, h.sessions)
  }

  /** `r` has the sessions of `h`, whatever became of their contents. */
  predicate SameTags(h: Hub, r: Hub) {
    && r.order == h.order && r.sessions.Keys == h.sessions.Keys
    && (WellFormed(h) ==> WellFormed(r))
  }

  const EmptyHub: Hub := Hub([], map[], map[], [], map[], Stats(0, 0, 0, 0), map[], map[], [], map[])

  // ---------------------------------------------------------------- broadcasting and session changes

  function Deliver(q: Queue, tagId: int, frame: Frame): Queue {
    if q.tagId == Some(tagId) then Push(q, frame) else q
  }

  function Broadcast(h: Hub, tagId: int, frame: Frame): Hub {
    h.(log := h.log + [Sent(tagId, frame)], subs := map c | c in h.subs :: Deliver(h.subs[c], tagId, frame))
  }

  function StartFrame(s: Session): Frame {
    SessionStart(IdentityOf(s), s.configRev)
  }

  function InfoFrame(s: Session): Frame {
    SessionInfo(IdentityOf(s), s.configRev)
  }

  function Flushed(s: Session): Session {
    s.(pending := [], batches := s.batches + [(|s.accepted| - |s.pending|, |s.accepted|)])
  }

  function Flush(h: Hub, tagId: int): (r: Hub)
    requires tagId in h.sessions
    ensures SameTags(h, r)
  {
    var s := h.sessions[tagId];
    if s.pending == [] then h
    else Broadcast(h.(sessions := h.sessions[tagId := Flushed(s)]), tagId, Append(IdentityOf(s), s.pending))
  }

  function LastOf(boots: seq<int>, n: nat): seq<int> {
    if |boots| > n then boots[|boots| - n..] else boots
  }

  function EndedOf(h: Hub, tagId: int): seq<int> {
    if tagId in h.endedBoots then h.endedBoots[tagId] else []
  }

  function RememberEnded(h: Hub, tagId: int, bootId: int): Hub {
    h.(endedBoots := h.endedBoots[tagId := LastOf(EndedOf(h, tagId) + [bootId], ENDED_BOOTS_PER_TAG)])
  }

  function Close(h: Hub, tagId: int, reason: EndReason): (r: Hub)
    requires tagId in h.sessions
    ensures SameTags(h, r)
  {
    var s := h.sessions[tagId];
    if s.active
    then Broadcast(h.(sessions := h.sessions[tagId := s.(active := false)]), tagId, SessionEnd(IdentityOf(s), reason))
    else h
  }

  function End(h: Hub, tagId: int, reason: EndReason): (r: Hub)
    requires tagId in h.sessions
    ensures SameTags(h, r)
  {
    var flushed := Flush(h, tagId);
    var remembered := if reason.Timeout? then flushed else RememberEnded(flushed, tagId, h.sessions[tagId].bootId);
    Close(remembered, tagId, reason)
  }

  /** Puts a fresh session under its tag; a tag seen before keeps its place in the dictionary. */
  function Register(h: Hub, s: Session): (r: Hub)
    ensures r.sessions == h.sessions[s.tagId := s]
    ensures WellFormed(h) ==> WellFormed(r)
  {
    h.(order := if s.tagId in h.sessions then h.order else h.order + [s.tagId],
       sessions := h.sessions[s.tagId := s],
       past := if s.tagId in h.sessions
               then h.past[s.tagId := PastOf(h, s.tagId) + [Past(h.sessions[s.tagId], |h.log|)]]
               else h.past)
  }

  /** A new session starts with what a hello may already have told; its part of the log begins here. */
  function Opening(h: Hub, tagId: int, bootId: int, now: real): (s: Session)
    ensures s.tagId == tagId && s.bootId == bootId && s.since == |h.log| && s.active && s.accepted == [] && s.batches == []
    ensures Sound(s)
  {
    var known := (tagId, bootId) in h.hello;
    NewSession(tagId, bootId,
               if known then Some(h.hello[(tagId, bootId)].sessionId) else None,
               if known then h.hello[(tagId, bootId)].configRev else None,
               now, |h.log|)
  }

  function Start(h: Hub, tagId: int, bootId: int, now: real): (r: Hub)
    ensures r.sessions.Keys == h.sessions.Keys + {tagId}
    ensures WellFormed(h) ==> WellFormed(r)
  {
    var s := Opening(h, tagId, bootId, now);
    Broadcast(Register(h, s), tagId, StartFrame(s))
  }

  function Resume(h: Hub, tagId: int): (r: Hub)
    requires tagId in h.sessions
    ensures SameTags(h, r)
  {
    var s := h.sessions[tagId].(active := true);
    Broadcast(h.(sessions := h.sessions[tagId := s]), tagId, StartFrame(s))
  }

  // ---------------------------------------------------------------- the total limit

  function TotalRanges(order: seq<int>, sessions: map<int, Session>): int {
    if order == [] then 0
    else
      var t := order[|order| - 1];
      TotalRanges(order[..|order| - 1], sessions) + if t in sessions then sessions[t].rangeCount else 0
  }

  function TotalCycles(order: seq<int>, sessions: map<int, Session>): nat {
    if order == [] then 0
    else
      var t := order[|order| - 1];
      TotalCycles(order[..|order| - 1], sessions) + if t in sessions then |sessions[t].cycles| else 0
  }

  /** Ended sessions come before active ones, larger before smaller. */
  predicate Heavier(a: Session, b: Session) {
    if a.active == b.active then a.rangeCount > b.rangeCount else !a.active
  }

  /** The first of the heaviest sessions that still buffer something. */
  function Victim(order: seq<int>, sessions: map<int, Session>): (v: Option<int>)
    ensures v.Some? ==> v.value in order && v.value in sessions && sessions[v.value].cycles != []
    ensures v.Some? ==> forall t :: t in order && t in sessions && sessions[t].cycles != [] ==>
      !Heavier(sessions[t], sessions[v.value])
    ensures v.None? ==> forall t :: t in order && t in sessions ==> sessions[t].cycles == []
  {
    if order == [] then None
    else
      var front, t := order[..|order| - 1], order[|order| - 1];
      assert order == front + [t];
      var best := Victim(front, sessions);
      if t !in sessions || sessions[t].cycles == [] then best
      else if best.None? || Heavier(sessions[t], sessions[best.value]) then Some(t)
      else best
  }

  lemma {:induction false} TotalsAfterPop(order: seq<int>, sessions: map<int, Session>, t: int)
    requires Distinct(order)
    requires t in sessions && sessions[t].cycles != []
    ensures var popped := sessions[t := PopOldest(sessions[t])];
      && TotalRanges(order, popped) == TotalRanges(order, sessions)
           - (if t in order then |sessions[t].cycles[0].record.ranges| else 0)
      && TotalCycles(order, popped) == TotalCycles(order, sessions) - (if t in order then 1 else 0)
  {
    if order != [] {
      var front, last := order[..|order| - 1], order[|order| - 1];
      assert order == front + [last];
      TotalsAfterPop(front, sessions, t);
    }
  }

  /** Pops from the heaviest session until the total fits or nothing is left. */
  function Enforce(order: seq<int>, sessions: map<int, Session>, limit: nat): (r: map<int, Session>)
    requires Distinct(order)
    ensures r.Keys == sessions.Keys
    ensures forall t :: t in r ==> r[t].tagId == sessions[t].tagId
    decreases TotalCycles(order, sessions)
  {
    var v := Victim(order, sessions);
    if TotalRanges(order, sessions) <= limit || v.None? then sessions
    else
      TotalsAfterPop(order, sessions, v.value);
      Enforce(order, sessions[v.value := PopOldest(sessions[v.value])], limit)
  }

  // ---------------------------------------------------------------- the public methods

  /** Finds or opens the session a packet belongs to. */
  function SessionFor(h: Hub, p: TelemetryPacket, now: real): (r: Hub)
    ensures p.tagId in r.sessions
    ensures WellFormed(h) ==> WellFormed(r)
  {
    if p.tagId !in h.sessions then Start(h, p.tagId, p.bootId, now)
    else if h.sessions[p.tagId].bootId != p.bootId then Start(End(h, p.tagId, Replaced), p.tagId, p.bootId, now)
    else if !h.sessions[p.tagId].active then Resume(h, p.tagId)
    else h
  }

  function Trimmed(cfg: Config, s: Session): Session {
    Trim(s, cfg.maxBufferCycles, cfg.maxBufferRanges, cfg.retentionMs)
  }

  /** Accepts the packet's cycles into its session and trims it. */
  function TakeCycles(cfg: Config, h: Hub, p: TelemetryPacket): (r: Hub)
    requires p.tagId in h.sessions
    ensures SameTags(h, r)
  {
    var s := h.sessions[p.tagId];
    var taken := AcceptAll(s, p.cycles);
    var counted := TrimCount(taken, cfg.maxBufferCycles, cfg.maxBufferRanges);
    var accepted := |taken.accepted| - |s.accepted|;
    h.(sessions := h.sessions[p.tagId := Trimmed(cfg, taken)],
       stats := h.stats.(published := h.stats.published + accepted,
                         late := h.stats.late + |p.cycles| - accepted,
                         overflow := h.stats.overflow + |taken.cycles| - |counted.cycles|))
  }

  function EnforceTotal(cfg: Config, h: Hub): (r: Hub)
    requires WellFormed(h)
    ensures SameTags(h, r)
  {
    var left := Enforce(h.order, h.sessions, cfg.maxTotalRanges);
    h.(sessions := left,
       stats := h.stats.(overflow := h.stats.overflow
                           + TotalCycles(h.order, h.sessions) - TotalCycles(h.order, left)))
  }

  function Touch(h: Hub, tagId: int, now: real): (r: Hub)
    requires tagId in h.sessions
    ensures SameTags(h, r)
  {
    h.(sessions := h.sessions[tagId := h.sessions[tagId].(lastSeen := now)])
  }

  /** What `publish` does once the packet's session is found. */
  function Absorb(cfg: Config, h: Hub, p: TelemetryPacket, now: real): (r: Hub)
    requires WellFormed(h) && p.tagId in h.sessions
    ensures SameTags(h, r)
  {
    var touched := Touch(EnforceTotal(cfg, TakeCycles(cfg, h, p)), p.tagId, now);
    if p.Last() then End(touched, p.tagId, TagEnd) else touched
  }

  function Publish(cfg: Config, h: Hub, p: TelemetryPacket, now: real): (r: Hub)
    requires WellFormed(h)
    ensures WellFormed(r)
  {
    if p.bootId in EndedOf(h, p.tagId) then h.(stats := h.stats.(stale := h.stats.stale + |p.cycles|))
    else Absorb(cfg, SessionFor(h, p, now), p, now)
  }

  function TickOne(cfg: Config, h: Hub, tagId: int, now: real): (r: Hub)
    requires tagId in h.sessions
    ensures SameTags(h, r)
  {
    var flushed := Flush(h, tagId);
    var s := flushed.sessions[tagId];
    if s.active && now - s.lastSeen >= cfg.sessionTimeout then End(flushed, tagId, Timeout) else flushed
  }

  /** The first `n` sessions of a tick. */
  function TickUpTo(cfg: Config, h: Hub, now: real, n: nat): (r: Hub)
    requires WellFormed(h) && n <= |h.order|
    ensures WellFormed(r) && r.sessions.Keys == h.sessions.Keys && r.order == h.order
  {
    if n == 0 then h else TickOne(cfg, TickUpTo(cfg, h, now, n - 1), h.order[n - 1], now)
  }

  function Tick(cfg: Config, h: Hub, now: real): (r: Hub)
    requires WellFormed(h)
    ensures WellFormed(r)
  {
    TickUpTo(cfg, h, now, |h.order|)
  }

  // ---------------------------------------------------------------- what the store tells the hub

  function Removed(keys: seq<(int, int)>, key: (int, int)): seq<(int, int)> {
    if keys == [] then []
    else if keys[0] == key then Removed(keys[1..], key)
    else [keys[0]] + Removed(keys[1..], key)
  }

  /** Keeps the most recent entries, forgetting the oldest. */
  function Forget(order: seq<(int, int)>, hello: map<(int, int), Hello>): (seq<(int, int)>, map<(int, int), Hello>)
    decreases |order|
  {
    if |order| > HELLO_MEMORY then Forget(order[1..], hello - {order[0]}) else (order, hello)
  }

  function Remember(h: Hub, key: (int, int), info: Hello): Hub {
    var kept := Forget(Removed(h.helloOrder, key) + [key], h.hello[key := info]);
    h.(helloOrder := kept.0, hello := kept.1)
  }

  function KnownRev(h: Hub, key: (int, int), configRev: Option<int>): Option<int> {
    if configRev.None? && key in h.hello then h.hello[key].configRev else configRev
  }

  /** Gives the tag's session what a hello said, and tells its viewers when that changes what they show. */
  function Tell(h: Hub, tagId: int, bootId: int, sessionId: int, rev: Option<int>): (r: Hub)
    ensures SameTags(h, r)
  {
    if tagId !in h.sessions || h.sessions[tagId].bootId != bootId then h
    else
      var s := h.sessions[tagId];
      var newRev := rev.Some? && rev != s.configRev;
      var informed := s.(sessionId := Some(sessionId), configRev := if newRev then rev else s.configRev);
      ToldViewers(h.(sessions := h.sessions[tagId := informed]), tagId, newRev, s.sessionId != Some(sessionId))
  }

  /** An active session starts anew for its viewers when its layout changed; an ended one is described again. */
  function ToldViewers(h: Hub, tagId: int, newRev: bool, changed: bool): (r: Hub)
    requires tagId in h.sessions
    ensures SameTags(h, r)
  {
    var s := h.sessions[tagId];
    if newRev && s.active then Broadcast(h, tagId, StartFrame(s))
    else if (newRev || changed) && !s.active then Broadcast(h, tagId, InfoFrame(s))
    else h
  }

  function NoteHello(h: Hub, tagId: int, bootId: int, sessionId: int, configRev: Option<int>): (r: Hub)
    ensures WellFormed(h) ==> WellFormed(r)
  {
    var rev := KnownRev(h, (tagId, bootId), configRev);
    Tell(Remember(h, (tagId, bootId), Hello(sessionId, rev)), tagId, bootId, sessionId, rev)
  }

  function NoteSession(h: Hub, tagId: int, bootId: int, sessionId: int): (r: Hub)
    ensures WellFormed(h) ==> WellFormed(r)
  {
    if tagId !in h.sessions || h.sessions[tagId].bootId != bootId || h.sessions[tagId].sessionId.Some? then h
    else
      var s := h.sessions[tagId].(sessionId := Some(sessionId));
      var stored := h.(sessions := h.sessions[tagId := s]);
      if s.active then stored else Broadcast(stored, tagId, InfoFrame(s))
  }

  /** `items` is the mapping in iteration order. */
  function NoteSessions(h: Hub, items: seq<((int, int), int)>): (r: Hub)
    ensures WellFormed(h) ==> WellFormed(r)
  {
    if items == [] then h
    else
      var last := items[|items| - 1];
      NoteSession(NoteSessions(h, items[..|items| - 1]), last.0.0, last.0.1, last.1)
  }

  // ---------------------------------------------------------------- subscribers

  /** The cycles of `sent` no older than `historyMs` before `latest`. */
  function Recent(sent: seq<LiveCycle>, latest: int, historyMs: int): seq<LiveCycle> {
    if sent == [] then []
    else
      var front, last := sent[..|sent| - 1], sent[|sent| - 1];
      Recent(front, latest, historyMs) + if latest - last.tMs <= historyMs then [last] else []
  }

  /** The buffered cycles that have been sent already. */
  function SentPart(s: Session): seq<LiveCycle> {
    if |s.cycles| >= |s.pending| then s.cycles[..|s.cycles| - |s.pending|] else []
  }

  function SnapshotOf(h: Hub, tagId: int, historyMs: int): (r: Frame)
    ensures r.Snapshot?
  {
    if tagId !in h.sessions then Snapshot(tagId, None, None, false, historyMs, [])
    else
      var s := h.sessions[tagId];
      var sent := SentPart(s);
      var latest := if sent == [] then 0 else sent[|sent| - 1].tMs;
      Snapshot(tagId, Some(IdentityOf(s)), s.configRev, s.active, historyMs, Recent(sent, latest, historyMs))
  }

  function Connect(cfg: Config, h: Hub, conn: nat): Hub {
    h.(subs := h.subs[conn := Fresh(cfg.subscriberMaxFrames)],
       joined := h.joined[conn := Joined(0, Error(""), 0, 0)])
  }

  function Disconnect(h: Hub, conn: nat): Hub {
    h.(subs := h.subs - {conn})
  }

  /** What is noted down of the session a connection joins. */
  function JoinedNow(h: Hub, tagId: int, historyMs: int): Joined {
    var known := tagId in h.sessions;
    Joined(|h.log|, SnapshotOf(h, tagId, historyMs),
           if known then Settled(h.sessions[tagId]) else 0, if known then |h.sessions[tagId].batches| else 0)
  }

  function Subscribe(h: Hub, conn: nat, tagId: int, historyMs: int): Hub
    requires conn in h.subs
  {
    h.(subs := h.subs[conn := Reset(h.subs[conn], Some(tagId), Some(SnapshotOf(h, tagId, historyMs)))],
       joined := h.joined[conn := JoinedNow(h, tagId, historyMs)])
  }

  function Unsubscribe(h: Hub, conn: nat): Hub
    requires conn in h.subs
  {
    h.(subs := h.subs[conn := Reset(h.subs[conn], None, None)])
  }

  // ---------------------------------------------------------------- runs

  datatype Event =
    | Published(packet: TelemetryPacket, now: real)
    | Ticked(now: real)
    | HelloNoted(tagId: int, bootId: int, sessionId: int, configRev: Option<int>)
    | SessionsNoted(items: seq<((int, int), int)>)
    | Connected(conn: nat)
    | Disconnected(conn: nat)
    | Subscribed(conn: nat, toTag: int, historyMs: int)
    | Unsubscribed(conn: nat)
    | Rejected(conn: nat, detail: string)
    | Taken(conn: nat)

  /** Events naming a connection that is not open do nothing. */
  function Handle(cfg: Config, h: Hub, e: Event): (r: Hub)
    requires WellFormed(h)
    ensures WellFormed(r)
  {
    match e
    case Published(packet, now) => Publish(cfg, h, packet, now)
    case Ticked(now) => Tick(cfg, h, now)
    case HelloNoted(tagId, bootId, sessionId, configRev) => NoteHello(h, tagId, bootId, sessionId, configRev)
    case SessionsNoted(items) => NoteSessions(h, items)
    case Connected(conn) => if conn in h.subs then h else Connect(cfg, h, conn)
    case Disconnected(conn) => Disconnect(h, conn)
    case Subscribed(conn, tagId, historyMs) => if conn in h.subs then Subscribe(h, conn, tagId, historyMs) else h
    case Unsubscribed(conn) => if conn in h.subs then Unsubscribe(h, conn) else h
    case Rejected(conn, detail) =>
      if conn in h.subs then h.(subs := h.subs[conn := Push(h.subs[conn], Error(detail))]) else h
    case Taken(conn) =>
      if conn in h.subs && !h.subs[conn].overflowed then h.(subs := h.subs[conn := Pop(h.subs[conn]).0]) else h
  }

  function Run(cfg: Config, events: seq<Event>): (r: Hub)
    ensures WellFormed(r)
  {
    if events == [] then EmptyHub else Handle(cfg, Run(cfg, events[..|events| - 1]), events[|events| - 1])
  }
}
