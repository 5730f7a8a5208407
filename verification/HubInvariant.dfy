/** What every run of the hub keeps, tag by tag and connection by connection. */
module HubInvariants {
  import opened Prelude
  import opened LiveTypes
  import opened LiveSessions
  import opened Queues
  import opened QueueHistory
  import opened HubStates

  // ---------------------------------------------------------------- the grammar of one tag's broadcasts

  /** Between blocks, inside the block of a boot, or after its end. */
  datatype Phase = Idle | Open(bootId: int) | Shut(bootId: int) | Broken

  function NextPhase(p: Phase, tagId: int, f: Frame): Phase {
    match f
    case SessionStart(id, _) =>
      if id.tagId != tagId || p.Broken? || (p.Open? && p.bootId != id.bootId) then Broken else Open(id.bootId)
    case Append(id, _) => if id.tagId == tagId && p == Open(id.bootId) then p else Broken
    case SessionEnd(id, _) => if id.tagId == tagId && p == Open(id.bootId) then Shut(id.bootId) else Broken
    case SessionInfo(id, _) => if id.tagId == tagId && p == Shut(id.bootId) then p else Broken
    case _ => Broken
  }

  function PhaseOf(log: seq<Sent>, tagId: int): Phase {
    if log == [] then Idle
    else
      var before, last := PhaseOf(log[..|log| - 1], tagId), log[|log| - 1];
      if last.tagId == tagId then NextPhase(before, tagId, last.frame) else before
  }

  /** The frames broadcast for a tag from position `since` of the log on. */
  function FramesSince(log: seq<Sent>, since: nat, tagId: int): seq<Frame> {
    if |log| <= since then []
    else
      var before, last := FramesSince(log[..|log| - 1], since, tagId), log[|log| - 1];
      if last.tagId == tagId then before + [last.frame] else before
  }

  /** The cycles of each append among `frames`. */
  function AppendsIn(frames: seq<Frame>): seq<seq<LiveCycle>> {
    if frames == [] then []
    else
      var before, last := AppendsIn(frames[..|frames| - 1]), frames[|frames| - 1];
      if last.Append? then before + [last.cycles] else before
  }

  function Stretch(accepted: seq<LiveCycle>, b: (int, int)): seq<LiveCycle> {
    if 0 <= b.0 <= b.1 <= |accepted| then accepted[b.0..b.1] else []
  }

  function Stretches(accepted: seq<LiveCycle>, batches: seq<(int, int)>): seq<seq<LiveCycle>> {
    if batches == [] then []
    else Stretches(accepted, batches[..|batches| - 1]) + [Stretch(accepted, batches[|batches| - 1])]
  }

  lemma LogSnoc(log: seq<Sent>, x: Sent, since: nat, t: int)
    ensures PhaseOf(log + [x], t)
         == if x.tagId == t then NextPhase(PhaseOf(log, t), t, x.frame) else PhaseOf(log, t)
    ensures since <= |log| ==>
      FramesSince(log + [x], since, t) == FramesSince(log, since, t) + (if x.tagId == t then [x.frame] else [])
  {
    assert (log + [x])[..|log|] == log;
  }

  lemma AppendsSnoc(frames: seq<Frame>, f: Frame)
    ensures AppendsIn(frames + [f]) == AppendsIn(frames) + if f.Append? then [f.cycles] else []
  {
    assert (frames + [f])[..|frames|] == frames;
  }

  lemma StretchesSnoc(accepted: seq<LiveCycle>, batches: seq<(int, int)>, b: (int, int))
    ensures Stretches(accepted, batches + [b]) == Stretches(accepted, batches) + [Stretch(accepted, b)]
  {
    assert (batches + [b])[..|batches|] == batches;
  }

  lemma {:induction false} StretchesExtend(accepted: seq<LiveCycle>, longer: seq<LiveCycle>, batches: seq<(int, int)>)
    requires accepted <= longer
    requires forall b :: 0 <= b < |batches| ==> 0 <= batches[b].0 < batches[b].1 <= |accepted|
    ensures Stretches(longer, batches) == Stretches(accepted, batches)
  {
    if batches != [] {
      var b := batches[|batches| - 1];
      assert longer[b.0..b.1] == accepted[b.0..b.1];
      StretchesExtend(accepted, longer, batches[..|batches| - 1]);
    }
  }

  // ---------------------------------------------------------------- one tag

  /** A tag's sessions: the one it has now, and before it those that were replaced. */
  datatype Line = Line(now: Option<Session>, past: seq<Past>)

  function LineOf(h: Hub, t: int): Line {
    Line(if t in h.sessions then Some(h.sessions[t]) else None, PastOf(h, t))
  }

  /** A replaced session is sound, was flushed and ended, and its part of the log shows just its batches. */
  ghost predicate PastOk(log: seq<Sent>, t: int, p: Past) {
    var s := p.session;
    && s.tagId == t && Sound(s) && !s.active && s.since <= p.until <= |log|
    && AppendsIn(FramesSince(log[..p.until], s.since, t)) == Stretches(s.accepted, s.batches)
  }

  /** The replaced sessions lie end to end up to `end`, with no frame of the tag before the first. */
  ghost predicate PastsOk(log: seq<Sent>, t: int, past: seq<Past>, end: nat) {
    && end <= |log|
    && (forall k :: 0 <= k < |past| ==> PastOk(log, t, past[k]) && past[k].until <= end)
    && (forall i, k :: 0 <= i < k < |past| ==> past[i].until <= past[k].session.since)
    && (forall k :: 0 < k < |past| ==> past[k - 1].until == past[k].session.since)
    && (past != [] ==> past[|past| - 1].until == end)
    && var first := if past == [] then end else past[0].session.since;
       first <= |log| && FramesSince(log[..first], 0, t) == []
  }

  /** The tag's session is sound, and the log shows just its state and just its batches. */
  ghost predicate TagOk(log: seq<Sent>, t: int, line: Line) {
    match line.now
    case None => PhaseOf(log, t) == Idle && line.past == [] && FramesSince(log, 0, t) == []
    case Some(s) =>
      && s.tagId == t && Sound(s) && s.since < |log|
      && PhaseOf(log, t) == (if s.active then Open(s.bootId) else Shut(s.bootId))
      && AppendsIn(FramesSince(log, s.since, t)) == Stretches(s.accepted, s.batches)
      && PastsOk(log, t, line.past, s.since)
  }

  lemma PastsStay(log: seq<Sent>, x: Sent, t: int, past: seq<Past>, end: nat)
    requires PastsOk(log, t, past, end)
    ensures PastsOk(log + [x], t, past, end)
  {
    hide Sound, AppendsIn, FramesSince, Stretches;
    forall k | 0 <= k < |past| ensures PastOk(log + [x], t, past[k]) {
      assert PastOk(log, t, past[k]);
      assert (log + [x])[..past[k].until] == log[..past[k].until];
    }
    var first := if past == [] then end else past[0].session.since;
    assert (log + [x])[..first] == log[..first];
  }

  /** The line once `s` has taken the place of the tag's session, `n` frames into the log. */
  function Succeeded(line: Line, s: Session, n: nat): Line {
    Line(Some(s), if line.now.Some? then line.past + [Past(line.now.value, n)] else line.past)
  }

  /** The same session later: nothing accepted or sent is taken back. */
  ghost predicate Later(s: Session, r: Session) {
    && r.tagId == s.tagId && r.bootId == s.bootId && r.since == s.since
    && s.accepted <= r.accepted && s.batches <= r.batches && Settled(s) <= Settled(r)
    && Sound(r)
  }

  lemma TagUntouched(log: seq<Sent>, x: Sent, t: int, line: Line)
    requires TagOk(log, t, line) && x.tagId != t
    ensures TagOk(log + [x], t, line)
  {
    hide PastsOk, Sound;
    LogSnoc(log, x, if line.now.Some? then line.now.value.since else 0, t);
    if line.now.Some? {
      PastsStay(log, x, t, line.past, line.now.value.since);
    }
  }

  lemma TagQuiet(log: seq<Sent>, t: int, s: Session, r: Session, past: seq<Past>)
    requires TagOk(log, t, Line(Some(s), past)) && Later(s, r) && r.batches == s.batches && r.active == s.active
    ensures TagOk(log, t, Line(Some(r), past))
  {
    hide PastsOk, Sound;
    BatchBounds(s);
    StretchesExtend(s.accepted, r.accepted, s.batches);
  }

  /** A start, end or info frame that takes the grammar to the session's new state. */
  ghost predicate ControlStep(s: Session, r: Session, f: Frame) {
    && Later(s, r) && r.batches == s.batches
    && match f
       case SessionStart(id, _) => id.tagId == s.tagId && id.bootId == s.bootId && r.active
       case SessionEnd(id, _) => id.tagId == s.tagId && id.bootId == s.bootId && s.active && !r.active
       case SessionInfo(id, _) => id.tagId == s.tagId && id.bootId == s.bootId && !s.active && !r.active
       case _ => false
  }

  lemma TagControl(log: seq<Sent>, t: int, s: Session, r: Session, past: seq<Past>, f: Frame)
    requires TagOk(log, t, Line(Some(s), past)) && ControlStep(s, r, f)
    ensures TagOk(log + [Sent(t, f)], t, Line(Some(r), past))
  {
    hide Sound, PastsOk;
    LogSnoc(log, Sent(t, f), s.since, t);
    AppendsSnoc(FramesSince(log, s.since, t), f);
    BatchBounds(s);
    StretchesExtend(s.accepted, r.accepted, s.batches);
    PastsStay(log, Sent(t, f), t, past, s.since);
  }

  lemma BatchBounds(s: Session)
    requires Sound(s)
    ensures forall b :: 0 <= b < |s.batches| ==> 0 <= s.batches[b].0 < s.batches[b].1 <= Settled(s) <= |s.accepted|
  {
    hide Chain, CursorAtEnd, AllAccountedFor, RangesIn, Suffix;
    assert BatchesInOrder(s);
    forall b | 0 <= b < |s.batches| ensures 0 <= s.batches[b].0 < s.batches[b].1 <= Settled(s) <= |s.accepted| {
      assert s.batches[b].1 <= Settled(s);
    }
  }

  lemma FlushedSound(s: Session)
    requires Sound(s) && s.pending != []
    ensures Later(s, Flushed(s)) && Flushed(s).active && s.active
    ensures Flushed(s).batches == s.batches + [(Settled(s), |s.accepted|)]
    ensures 0 <= Settled(s) && s.accepted[Settled(s)..] == s.pending
  {
    hide Chain, RangesIn, AllAccountedFor;
    assert CursorAtEnd(Flushed(s));
    FlushedAccountedFor(s);
  }

  lemma FlushedAccountedFor(s: Session)
    requires AllAccountedFor(s) && 0 <= Settled(s) && |s.cycles| <= |s.accepted|
    ensures AllAccountedFor(Flushed(s))
  {
    var r := Flushed(s);
    forall i: nat | i < Settled(r) ensures InBatch(r.batches, i) <==> i !in r.unsent {
      InBatchSnoc(s.batches, (Settled(s), |s.accepted|), i);
    }
  }

  lemma InBatchSnoc(batches: seq<(int, int)>, b: (int, int), i: nat)
    ensures InBatch(batches + [b], i) <==> InBatch(batches, i) || b.0 <= i < b.1
  {
    if InBatch(batches, i) {
      var k :| 0 <= k < |batches| && batches[k].0 <= i < batches[k].1;
      assert (batches + [b])[k] == batches[k];
    }
    assert (batches + [b])[|batches|] == b;
  }

  lemma TagFlush(log: seq<Sent>, t: int, s: Session, past: seq<Past>)
    requires TagOk(log, t, Line(Some(s), past)) && s.pending != []
    ensures TagOk(log + [Sent(t, Append(IdentityOf(s), s.pending))], t, Line(Some(Flushed(s)), past))
  {
    hide Sound, PastsOk;
    var f := Append(IdentityOf(s), s.pending);
    FlushedSound(s);
    LogSnoc(log, Sent(t, f), s.since, t);
    AppendsSnoc(FramesSince(log, s.since, t), f);
    StretchesSnoc(s.accepted, s.batches, (Settled(s), |s.accepted|));
    assert Stretch(s.accepted, (Settled(s), |s.accepted|)) == s.pending;
    PastsStay(log, Sent(t, f), t, past, s.since);
  }

  lemma NothingYet(log: seq<Sent>, t: int)
    ensures FramesSince(log, |log|, t) == []
  {}

  lemma TagStart(log: seq<Sent>, t: int, line: Line, s: Session)
    requires TagOk(log, t, line) && (line.now.Some? ==> !line.now.value.active)
    requires Sound(s) && s.tagId == t && s.since == |log| && s.active && s.accepted == [] && s.batches == []
    ensures TagOk(log + [Sent(t, StartFrame(s))], t, Succeeded(line, s, |log|))
  {
    hide Sound, PastsOk;
    var f := StartFrame(s);
    LogSnoc(log, Sent(t, f), |log|, t);
    NothingYet(log, t);
    AppendsSnoc([], f);
    assert [] + [f] == [f];
    PastsGrow(log, t, line);
    PastsStay(log, Sent(t, f), t, Succeeded(line, s, |log|).past, |log|);
  }

  /** The session that is replaced joins those replaced before it. */
  lemma PastsGrow(log: seq<Sent>, t: int, line: Line)
    requires TagOk(log, t, line) && (line.now.Some? ==> !line.now.value.active)
    ensures forall s :: PastsOk(log, t, Succeeded(line, s, |log|).past, |log|)
  {
    hide Sound, AppendsIn, FramesSince, Stretches, PhaseOf;
    assert log[..|log|] == log;
  }

  // ---------------------------------------------------------------- one connection

  ghost predicate Increasing(cs: seq<LiveCycle>) {
    forall i, j :: 0 <= i < j < |cs| ==> cs[i].seqN < cs[j].seqN
  }

  /** `cs` is a selection of the first `n` accepted cycles, in order. */
  ghost predicate SelectedFrom(cs: seq<LiveCycle>, accepted: seq<LiveCycle>, n: int) {
    0 <= n <= |accepted| && Increasing(cs) && forall c :: c in cs ==> c in accepted[..n]
  }

  /** What the connection has been told of a session that was there when it subscribed. */
  ghost predicate Joint(log: seq<Sent>, t: int, s: Session, j: Joined) {
    && j.snapshot.Snapshot? && SelectedFrom(j.snapshot.cycles, s.accepted, j.settled)
    && j.settled <= Settled(s) && j.batches <= |s.batches|
    && (forall b :: 0 <= b < j.batches ==> s.batches[b].1 <= j.settled)
    && (forall b :: j.batches <= b < |s.batches| ==> j.settled <= s.batches[b].0)
    && AppendsIn(FramesSince(log, j.since, t)) == Stretches(s.accepted, s.batches[j.batches..])
  }

  /** The queue was handed the snapshot and then every later frame of the tag. */
  ghost predicate ConnOk(log: seq<Sent>, t: int, line: Line, q: Queue, j: Joined) {
    && j.since <= |log| && j.snapshot.Snapshot?
    && (q.overflowed || NonErrors(q.pushed) == [j.snapshot] + FramesSince(log, j.since, t))
    && (line.now.Some? && line.now.value.since < j.since ==> Joint(log, t, line.now.value, j))
    && PastsJoint(log, t, line.past, j)
  }

  /** The connection subscribed while the session was its tag's. */
  predicate JoinedDuring(p: Past, j: Joined) {
    p.session.since < j.since <= p.until
  }

  ghost predicate PastsJoint(log: seq<Sent>, t: int, past: seq<Past>, j: Joined) {
    forall k :: 0 <= k < |past| ==>
      past[k].until <= |log| && (JoinedDuring(past[k], j) ==> Joint(log[..past[k].until], t, past[k].session, j))
  }

  lemma PastsStayJoint(log: seq<Sent>, x: Sent, t: int, past: seq<Past>, j: Joined)
    requires PastsJoint(log, t, past, j)
    ensures PastsJoint(log + [x], t, past, j)
  {
    hide Joint;
    forall k | 0 <= k < |past| && JoinedDuring(past[k], j)
      ensures past[k].until <= |log + [x]| && Joint((log + [x])[..past[k].until], t, past[k].session, j)
    {
      assert (log + [x])[..past[k].until] == log[..past[k].until];
    }
  }

  lemma PushedMore(q: Queue, f: Frame)
    ensures Push(q, f).overflowed || Push(q, f).pushed == q.pushed + [f]
    ensures Push(q, f).tagId == q.tagId
  {
    ShrinkKeepsHistory(Enqueue(q, f));
  }

  lemma ConnUntouched(log: seq<Sent>, x: Sent, t: int, line: Line, q: Queue, j: Joined)
    requires ConnOk(log, t, line, q, j) && x.tagId != t
    ensures ConnOk(log + [x], t, line, q, j)
  {
    hide PastsJoint;
    LogSnoc(log, x, j.since, t);
    PastsStayJoint(log, x, t, line.past, j);
  }

  lemma JointLater(log: seq<Sent>, t: int, s: Session, r: Session, j: Joined)
    requires Joint(log, t, s, j) && Sound(s) && Later(s, r) && r.batches == s.batches
    ensures Joint(log, t, r, j)
  {
    hide Sound, AppendsIn, FramesSince, Stretches;
    BatchBounds(s);
    StretchesExtend(s.accepted, r.accepted, s.batches[j.batches..]);
    assert r.accepted[..j.settled] == s.accepted[..j.settled];
  }

  lemma ConnQuiet(log: seq<Sent>, t: int, s: Session, r: Session, past: seq<Past>, q: Queue, j: Joined)
    requires ConnOk(log, t, Line(Some(s), past), q, j) && Sound(s) && Later(s, r) && r.batches == s.batches
    ensures ConnOk(log, t, Line(Some(r), past), q, j)
  {
    hide Joint, Sound, PastsJoint;
    if s.since < j.since {
      JointLater(log, t, s, r, j);
    }
  }

  /** The queue's part of a broadcast frame. */
  lemma ConnTold(log: seq<Sent>, t: int, f: Frame, q: Queue, j: Joined)
    requires j.since <= |log| && !f.Error?
    requires q.overflowed || NonErrors(q.pushed) == [j.snapshot] + FramesSince(log, j.since, t)
    ensures var r := Push(q, f);
      r.overflowed || NonErrors(r.pushed) == [j.snapshot] + FramesSince(log + [Sent(t, f)], j.since, t)
  {
    hide Push;
    PushedMore(q, f);
    NonErrorsSnoc(q.pushed, f);
    LogSnoc(log, Sent(t, f), j.since, t);
    PushWhenOverflowed(q, f);
  }

  lemma PushWhenOverflowed(q: Queue, f: Frame)
    ensures q.overflowed ==> Push(q, f).overflowed
  {}

  lemma ConnControl(log: seq<Sent>, t: int, s: Session, r: Session, past: seq<Past>, f: Frame, q: Queue, j: Joined)
    requires ConnOk(log, t, Line(Some(s), past), q, j) && Sound(s) && ControlStep(s, r, f)
    ensures ConnOk(log + [Sent(t, f)], t, Line(Some(r), past), Push(q, f), j)
  {
    hide Sound, Push, PastsJoint;
    ConnTold(log, t, f, q, j);
    PastsStayJoint(log, Sent(t, f), t, past, j);
    if s.since < j.since {
      JointLater(log, t, s, r, j);
      LogSnoc(log, Sent(t, f), j.since, t);
      AppendsSnoc(FramesSince(log, j.since, t), f);
    }
  }

  lemma ConnFlush(log: seq<Sent>, t: int, s: Session, past: seq<Past>, q: Queue, j: Joined)
    requires ConnOk(log, t, Line(Some(s), past), q, j) && Sound(s) && s.pending != []
    ensures var f := Append(IdentityOf(s), s.pending);
      ConnOk(log + [Sent(t, f)], t, Line(Some(Flushed(s)), past), Push(q, f), j)
  {
    hide Sound, Push, PastsJoint, Joint;
    var f := Append(IdentityOf(s), s.pending);
    ConnTold(log, t, f, q, j);
    PastsStayJoint(log, Sent(t, f), t, past, j);
    if s.since < j.since {
      JointFlush(log, t, s, f, j);
    }
  }

  lemma JointFlush(log: seq<Sent>, t: int, s: Session, f: Frame, j: Joined)
    requires Joint(log, t, s, j) && Sound(s) && s.pending != [] && f == Append(IdentityOf(s), s.pending) && j.since <= |log|
    ensures Joint(log + [Sent(t, f)], t, Flushed(s), j)
  {
    hide Sound, AppendsIn, FramesSince, Stretches, SelectedFrom;
    var r, b := Flushed(s), (Settled(s), |s.accepted|);
    FlushedSound(s);
    LogSnoc(log, Sent(t, f), j.since, t);
    AppendsSnoc(FramesSince(log, j.since, t), f);
    assert r.batches[j.batches..] == s.batches[j.batches..] + [b];
    StretchesSnoc(s.accepted, s.batches[j.batches..], b);
    assert Stretch(s.accepted, b) == s.pending;
  }

  lemma ConnStart(log: seq<Sent>, t: int, line: Line, s: Session, q: Queue, j: Joined)
    requires ConnOk(log, t, line, q, j) && s.since == |log|
    ensures ConnOk(log + [Sent(t, StartFrame(s))], t, Succeeded(line, s, |log|), Push(q, StartFrame(s)), j)
  {
    hide Push, Joint;
    ConnTold(log, t, StartFrame(s), q, j);
    assert log[..|log|] == log;
    PastsStayJoint(log, Sent(t, StartFrame(s)), t, Succeeded(line, s, |log|).past, j);
  }

  // ---------------------------------------------------------------- the whole hub

  ghost predicate TagsOk(h: Hub) {
    forall t :: TagOk(h.log, t, LineOf(h, t))
  }

  ghost predicate ConnsOk(h: Hub) {
    forall c :: c in h.subs ==>
      && c in h.joined && Inv(h.subs[c])
      && (h.subs[c].tagId.Some? ==>
            ConnOk(h.log, h.subs[c].tagId.value, LineOf(h, h.subs[c].tagId.value), h.subs[c], h.joined[c]))
  }

  ghost predicate HubOk(h: Hub) {
    WellFormed(h) && TagsOk(h) && ConnsOk(h)
  }

  /** Nothing but tag `t`'s sessions differs. */
  ghost predicate OnlySession(h: Hub, r: Hub, t: int) {
    && r.log == h.log && r.subs == h.subs && r.joined == h.joined && WellFormed(r)
    && forall u :: u != t ==> LineOf(r, u) == LineOf(h, u)
  }

  /** Tag `t`'s session differs, and it is still the same session. */
  ghost predicate SessionChanged(h: Hub, r: Hub, t: int) {
    OnlySession(h, r, t) && t in h.sessions && t in r.sessions && PastOf(r, t) == PastOf(h, t)
  }

  lemma QuietStep(h: Hub, r: Hub, t: int)
    requires HubOk(h) && SessionChanged(h, r, t)
    requires Later(h.sessions[t], r.sessions[t])
    requires r.sessions[t].batches == h.sessions[t].batches && r.sessions[t].active == h.sessions[t].active
    ensures HubOk(r)
  {
    hide WellFormed, TagOk, ConnOk, Inv, Later;
    var s := h.sessions[t];
    assert TagOk(h.log, t, LineOf(h, t));
    TagSound(h.log, t, s, PastOf(h, t));
    TagQuiet(h.log, t, s, r.sessions[t], PastOf(h, t));
    forall u ensures TagOk(r.log, u, LineOf(r, u)) {
      assert TagOk(h.log, u, LineOf(h, u));
    }
    forall c | c in r.subs && r.subs[c].tagId == Some(t)
      ensures ConnOk(r.log, t, LineOf(r, t), r.subs[c], r.joined[c])
    {
      ConnQuiet(h.log, t, s, r.sessions[t], PastOf(h, t), h.subs[c], h.joined[c]);
    }
  }

  /** A broadcast for tag `t`, after its sessions changed. */
  lemma BroadcastStep(h: Hub, g: Hub, t: int, f: Frame)
    requires HubOk(h) && OnlySession(h, g, t)
    requires TagOk(h.log + [Sent(t, f)], t, LineOf(g, t))
    requires forall c :: c in h.subs && h.subs[c].tagId == Some(t) ==>
      ConnOk(h.log + [Sent(t, f)], t, LineOf(g, t), Push(h.subs[c], f), h.joined[c])
    ensures HubOk(Broadcast(g, t, f))
  {
    hide TagOk, ConnOk, Inv, Push;
    var r := Broadcast(g, t, f);
    forall u ensures TagOk(r.log, u, LineOf(r, u)) {
      if u != t {
        assert TagOk(h.log, u, LineOf(h, u));
        TagUntouched(h.log, Sent(t, f), u, LineOf(h, u));
      }
    }
    forall c | c in r.subs
      ensures c in r.joined && Inv(r.subs[c])
      ensures r.subs[c].tagId.Some? ==>
        ConnOk(r.log, r.subs[c].tagId.value, LineOf(r, r.subs[c].tagId.value), r.subs[c], r.joined[c])
    {
      var q := h.subs[c];
      PushInv(q, f);
      PushedMore(q, f);
      if q.tagId.Some? && q.tagId.value != t {
        ConnUntouched(h.log, Sent(t, f), q.tagId.value, LineOf(h, q.tagId.value), q, h.joined[c]);
      }
    }
  }

  lemma ControlStepOk(h: Hub, g: Hub, t: int, f: Frame)
    requires HubOk(h) && SessionChanged(h, g, t)
    requires ControlStep(h.sessions[t], g.sessions[t], f)
    ensures HubOk(Broadcast(g, t, f))
  {
    hide TagOk, ConnOk, Inv, Push, ControlStep;
    var s, r := h.sessions[t], g.sessions[t];
    assert TagOk(h.log, t, LineOf(h, t));
    TagSound(h.log, t, s, PastOf(h, t));
    TagControl(h.log, t, s, r, PastOf(h, t), f);
    forall c | c in h.subs && h.subs[c].tagId == Some(t)
      ensures ConnOk(h.log + [Sent(t, f)], t, LineOf(g, t), Push(h.subs[c], f), h.joined[c])
    {
      ConnControl(h.log, t, s, r, PastOf(h, t), f, h.subs[c], h.joined[c]);
    }
    BroadcastStep(h, g, t, f);
  }

  lemma TagSound(log: seq<Sent>, t: int, s: Session, past: seq<Past>)
    requires TagOk(log, t, Line(Some(s), past))
    ensures Sound(s) && s.tagId == t
  {}
}
