/** What holds of every run of the hub: the grammar of a tag's frames, exactly-once delivery, and the limits. */
module HubTheorems {
  import opened Prelude
  import opened LiveTypes
  import opened LiveSessions
  import opened Queues
  import opened QueueHistory
  import opened HubStates
  import opened HubInvariants
  import opened HubRuns

  // ---------------------------------------------------------------- blocks

  /** One session as a viewer sees it: a start, appends and repeated starts, an end, and late information. */
  datatype Block = Block(start: Frame, body: seq<Frame>, end: seq<Frame>, infos: seq<Frame>)

  ghost predicate Inside(f: Frame, tagId: int, bootId: int) {
    (f.SessionStart? || f.Append?) && f.id.tagId == tagId && f.id.bootId == bootId
  }

  ghost predicate WellBlock(b: Block, tagId: int, bootId: int) {
    && b.start.SessionStart? && b.start.id.tagId == tagId && b.start.id.bootId == bootId
    && (forall f :: f in b.body ==> Inside(f, tagId, bootId))
    && |b.end| <= 1
    && (forall f :: f in b.end ==> f.SessionEnd? && f.id.tagId == tagId && f.id.bootId == bootId)
    && (b.infos != [] ==> b.end != [])
    && (forall f :: f in b.infos ==> f.SessionInfo? && f.id.tagId == tagId && f.id.bootId == bootId)
  }

  function Text(b: Block): seq<Frame> {
    [b.start] + b.body + b.end + b.infos
  }

  function Texts(blocks: seq<Block>): seq<Frame> {
    if blocks == [] then [] else Texts(blocks[..|blocks| - 1]) + Text(blocks[|blocks| - 1])
  }

  /** Every block is for one boot of the tag, and only the last may still be open. */
  ghost predicate Grammatical(blocks: seq<Block>, tagId: int) {
    && (forall i :: 0 <= i < |blocks| ==> blocks[i].start.SessionStart? && WellBlock(blocks[i], tagId, blocks[i].start.id.bootId))
    && (forall i :: 0 <= i < |blocks| - 1 ==> blocks[i].end != [])
  }

  ghost predicate Ends(blocks: seq<Block>, p: Phase) {
    match p
    case Broken => false
    case Idle => blocks == []
    case Open(bootId) =>
      && blocks != [] && blocks[|blocks| - 1].end == []
      && blocks[|blocks| - 1].start.SessionStart? && blocks[|blocks| - 1].start.id.bootId == bootId
    case Shut(bootId) =>
      && blocks != [] && blocks[|blocks| - 1].end != []
      && blocks[|blocks| - 1].start.SessionStart? && blocks[|blocks| - 1].start.id.bootId == bootId
  }

  lemma TextsSnoc(blocks: seq<Block>, b: Block)
    ensures Texts(blocks + [b]) == Texts(blocks) + Text(b)
  {
    assert (blocks + [b])[..|blocks|] == blocks;
  }

  /** Whether a block is open or ended, and for which boot. */
  function BlockPhase(b: Block): Phase
    requires b.start.SessionStart?
  {
    if b.end == [] then Open(b.start.id.bootId) else Shut(b.start.id.bootId)
  }

  /** A frame that belongs to the block `b` rather than opening one. */
  lemma ExtendBlock(b: Block, tagId: int, f: Frame) returns (r: Block)
    requires b.start.SessionStart? && WellBlock(b, tagId, b.start.id.bootId)
    requires NextPhase(BlockPhase(b), tagId, f) != Broken && !(f.SessionStart? && b.end != [])
    ensures r.start == b.start && WellBlock(r, tagId, b.start.id.bootId)
    ensures BlockPhase(r) == NextPhase(BlockPhase(b), tagId, f)
    ensures Text(r) == Text(b) + [f]
  {
    match f
    case SessionEnd(_, _) => r := b.(end := [f]);
    case SessionInfo(_, _) => r := b.(infos := b.infos + [f]);
    case _ => r := b.(body := b.body + [f]);
  }

  lemma GrammaticalSnoc(front: seq<Block>, b: Block, tagId: int)
    requires Grammatical(front, tagId) && (forall i :: 0 <= i < |front| ==> front[i].end != [])
    requires b.start.SessionStart? && WellBlock(b, tagId, b.start.id.bootId)
    ensures Grammatical(front + [b], tagId)
  {
    hide WellBlock;
  }

  /** The next frame either opens a block or extends the last one. */
  lemma NextFrame(blocks: seq<Block>, p: Phase, tagId: int, f: Frame) returns (r: seq<Block>)
    requires Grammatical(blocks, tagId) && Ends(blocks, p) && NextPhase(p, tagId, f) != Broken
    ensures Grammatical(r, tagId) && Ends(r, NextPhase(p, tagId, f))
    ensures Texts(r) == Texts(blocks) + [f]
  {
    hide Texts, Text;
    if f.SessionStart? && !p.Open? {
      var b := Block(f, [], [], []);
      r := blocks + [b];
      GrammaticalSnoc(blocks, b, tagId);
      TextsSnoc(blocks, b);
      TextOfStart(f);
    } else {
      var front, b := blocks[..|blocks| - 1], blocks[|blocks| - 1];
      assert blocks == front + [b];
      var b' := ExtendBlock(b, tagId, f);
      r := front + [b'];
      GrammaticalSnoc(front, b', tagId);
      TextsSnoc(front, b);
      TextsSnoc(front, b');
    }
  }

  lemma TextOfStart(f: Frame)
    ensures Text(Block(f, [], [], [])) == [f]
  {}

  lemma {:induction false} BlocksOf(log: seq<Sent>, tagId: int) returns (blocks: seq<Block>)
    requires PhaseOf(log, tagId) != Broken
    ensures Grammatical(blocks, tagId) && Ends(blocks, PhaseOf(log, tagId))
    ensures Texts(blocks) == FramesSince(log, 0, tagId)
  {
    if log == [] {
      blocks := [];
    } else {
      var front, last := log[..|log| - 1], log[|log| - 1];
      assert log == front + [last];
      LogSnoc(front, last, 0, tagId);
      BrokenStays(PhaseOf(front, tagId), tagId, last.frame);
      blocks := BlocksOf(front, tagId);
      if last.tagId == tagId {
        blocks := NextFrame(blocks, PhaseOf(front, tagId), tagId, last.frame);
      }
    }
  }

  lemma BrokenStays(p: Phase, tagId: int, f: Frame)
    ensures p == Broken ==> NextPhase(p, tagId, f) == Broken
  {}

  /** In every run the frames broadcast for a tag are blocks, start to end, the last possibly open. */
  lemma FramesFormBlocks(cfg: Config, events: seq<Event>, tagId: int) returns (blocks: seq<Block>)
    ensures Grammatical(blocks, tagId)
    ensures Texts(blocks) == FramesSince(Run(cfg, events).log, 0, tagId)
  {
    hide NextPhase;
    RunOk(cfg, events);
    var h := Run(cfg, events);
    assert TagOk(h.log, tagId, LineOf(h, tagId));
    blocks := BlocksOf(h.log, tagId);
  }

  // ---------------------------------------------------------------- every session of a tag

  /** All sessions a tag has had, oldest first, each with the length of the log when its time was over. */
  function Histories(h: Hub, t: int): seq<Past> {
    PastOf(h, t) + if t in h.sessions then [Past(h.sessions[t], |h.log|)] else []
  }

  /** The appends broadcast for tag `t` from position `lo` to position `hi` of the log. */
  function AppendsBetween(log: seq<Sent>, t: int, lo: nat, hi: nat): seq<seq<LiveCycle>> {
    if hi <= |log| then AppendsIn(FramesSince(log[..hi], lo, t)) else []
  }

  /** A session's own part of the log holds exactly its sent stretches, and only the tag's last session may be active. */
  ghost predicate ShownExactly(log: seq<Sent>, t: int, p: Past, replaced: bool) {
    var s := p.session;
    && s.tagId == t && Sound(s) && s.since <= p.until <= |log|
    && AppendsBetween(log, t, s.since, p.until) == Stretches(s.accepted, s.batches)
    && (replaced ==> !s.active && s.pending == [])
  }

  lemma HistoryShown(h: Hub, t: int, k: nat)
    requires HubOk(h) && k < |Histories(h, t)|
    ensures ShownExactly(h.log, t, Histories(h, t)[k], k < |PastOf(h, t)|)
  {
    hide PhaseOf, FramesSince, AppendsIn, Stretches, Chain, CursorAtEnd, AllAccountedFor, BatchesInOrder, Inv, ConnOk;
    assert TagOk(h.log, t, LineOf(h, t));
    assert h.log[..|h.log|] == h.log;
    if k < |PastOf(h, t)| {
      assert PastOk(h.log, t, PastOf(h, t)[k]);
    }
  }

  /** In every run, for every session a tag has had: its appends are its sent stretches; none is replaced unflushed. */
  lemma AppendsAreTheSentStretches(cfg: Config, events: seq<Event>, tagId: int, k: nat)
    requires k < |Histories(Run(cfg, events), tagId)|
    ensures var h := Run(cfg, events);
      ShownExactly(h.log, tagId, Histories(h, tagId)[k], k < |PastOf(h, tagId)|)
  {
    RunOk(cfg, events);
    HistoryShown(Run(cfg, events), tagId, k);
  }

  lemma {:induction false} StretchAt(accepted: seq<LiveCycle>, batches: seq<(int, int)>, b: nat)
    ensures |Stretches(accepted, batches)| == |batches|
    ensures b < |batches| ==> Stretches(accepted, batches)[b] == Stretch(accepted, batches[b])
  {
    if batches != [] {
      StretchAt(accepted, batches[..|batches| - 1], b);
    }
  }

  /** Cycle `i` stands in append `b`, at its place there. */
  predicate StandsIn(appends: seq<seq<LiveCycle>>, batches: seq<(int, int)>, b: nat, i: nat, c: LiveCycle) {
    && b < |appends| && b < |batches| && InStretch(batches[b], i)
    && i - batches[b].0 < |appends[b]| && appends[b][i - batches[b].0] == c
  }

  ghost predicate StandsSomewhere(appends: seq<seq<LiveCycle>>, batches: seq<(int, int)>, i: nat, c: LiveCycle) {
    exists b: nat :: StandsIn(appends, batches, b, i, c)
  }

  ghost predicate StandsTwice(appends: seq<seq<LiveCycle>>, batches: seq<(int, int)>, i: nat, c: LiveCycle) {
    exists a: nat, b: nat :: a < b && StandsIn(appends, batches, a, i, c) && StandsIn(appends, batches, b, i, c)
  }

  /** Accepted cycle `i` is pending, stands in exactly one of `appends`, or was evicted unsent: one of the three. */
  ghost predicate OneFate(s: Session, appends: seq<seq<LiveCycle>>, i: nat) {
    && i < |s.accepted| && |appends| == |s.batches|
    && var sent := StandsSomewhere(appends, s.batches, i, s.accepted[i]);
       if i >= Settled(s) then !sent && i !in s.unsent && s.accepted[i] in s.pending
       else if i in s.unsent then !sent && i < |s.accepted| - |s.cycles|
       else sent && !StandsTwice(appends, s.batches, i, s.accepted[i])
  }

  lemma FateShown(s: Session, i: nat)
    requires Sound(s) && i < |s.accepted|
    ensures OneFate(s, Stretches(s.accepted, s.batches), i)
  {
    var appends := Stretches(s.accepted, s.batches);
    StretchAt(s.accepted, s.batches, 0);
    BatchBounds(s);
    ExactlyOneFate(s, i);
    SettledBounds(s);
    hide Sound, Stretches, Stretch, BatchesInOrder;
    if InBatch(s.batches, i) {
      var b: nat :| b < |s.batches| && s.batches[b].0 <= i < s.batches[b].1;
      StandsInOwn(s, b, i);
    }
    if StandsSomewhere(appends, s.batches, i, s.accepted[i]) {
      var b: nat :| StandsIn(appends, s.batches, b, i, s.accepted[i]);
      assert s.batches[b].0 <= i < s.batches[b].1;
      assert InBatch(s.batches, i);
    }
  }

  lemma SettledBounds(s: Session)
    requires Sound(s)
    ensures 0 <= Settled(s) <= |s.accepted|
    ensures forall i :: Settled(s) <= i < |s.accepted| ==> s.accepted[i] in s.pending
  {
    hide Chain, CursorAtEnd, AllAccountedFor, BatchesInOrder, RangesIn;
    forall i | Settled(s) <= i < |s.accepted| ensures s.accepted[i] in s.pending {
      assert s.pending[i - Settled(s)] == s.accepted[i];
    }
  }

  lemma StandsInOwn(s: Session, b: nat, i: nat)
    requires Sound(s) && b < |s.batches| && InStretch(s.batches[b], i)
    ensures i < |s.accepted| && StandsIn(Stretches(s.accepted, s.batches), s.batches, b, i, s.accepted[i])
  {
    BatchBounds(s);
    StretchAt(s.accepted, s.batches, b);
  }

  /**
    In every run, for every session a tag has had, each accepted cycle has one fate: it is still pending, or stands
    in exactly one of the session's appends, or was evicted while pending. A replaced session has none pending.
   */
  lemma EveryCycleHasOneFate(cfg: Config, events: seq<Event>, tagId: int, k: nat, i: nat)
    requires k < |Histories(Run(cfg, events), tagId)|
    requires i < |Histories(Run(cfg, events), tagId)[k].session.accepted|
    ensures var h := Run(cfg, events);
      var p := Histories(h, tagId)[k];
      && OneFate(p.session, AppendsBetween(h.log, tagId, p.session.since, p.until), i)
      && (k < |PastOf(h, tagId)| ==> i < Settled(p.session))
  {
    hide Run, Sound, OneFate, AppendsBetween, Stretches;
    AppendsAreTheSentStretches(cfg, events, tagId, k);
    FateShown(Histories(Run(cfg, events), tagId)[k].session, i);
  }

  // ---------------------------------------------------------------- what a subscriber is told

  function Flat(parts: seq<seq<LiveCycle>>): seq<LiveCycle> {
    if parts == [] then [] else Flat(parts[..|parts| - 1]) + parts[|parts| - 1]
  }

  /** Everything in `a` comes before position `m` of the chain, everything in `b` from `m` on. */
  lemma JoinIncreasing(whole: seq<LiveCycle>, m: nat, a: seq<LiveCycle>, b: seq<LiveCycle>)
    requires Chain(whole) && m <= |whole| && Increasing(a) && Increasing(b)
    requires forall c :: c in a ==> c in whole[..m]
    requires forall c :: c in b ==> c in whole[m..]
    ensures Increasing(a + b)
  {
    hide Chain;
    forall x, y | x in a && y in b ensures x.seqN < y.seqN {
      var i :| 0 <= i < m && whole[..m][i] == x;
      var k :| 0 <= k < |whole| - m && whole[m..][k] == y;
      ChainIncreases(whole, i, m + k);
    }
    forall i, k | 0 <= i < k < |a + b| ensures (a + b)[i].seqN < (a + b)[k].seqN {
      if i < |a| <= k {
        assert a[i] in a && b[k - |a|] in b;
      }
    }
  }

  lemma SliceIncreasing(whole: seq<LiveCycle>, lo: nat, hi: nat)
    requires Chain(whole) && lo <= hi <= |whole|
    ensures Increasing(whole[lo..hi])
  {
    forall i, k | 0 <= i < k < hi - lo ensures whole[lo..hi][i].seqN < whole[lo..hi][k].seqN {
      ChainIncreases(whole, lo + i, lo + k);
    }
  }

  /** Ordered, disjoint stretches from `lo` up to `hi`, laid end to end, increase. */
  lemma {:induction false} StretchesIncreasing(whole: seq<LiveCycle>, batches: seq<(int, int)>, lo: nat, hi: nat)
    requires Chain(whole) && lo <= hi <= |whole|
    requires forall b :: 0 <= b < |batches| ==> lo <= batches[b].0 < batches[b].1 <= hi
    requires forall b, c :: 0 <= b < c < |batches| ==> batches[b].1 <= batches[c].0
    ensures Increasing(Flat(Stretches(whole, batches)))
    ensures forall c :: c in Flat(Stretches(whole, batches)) ==> c in whole[lo..hi]
  {
    if batches != [] {
      hide Chain;
      var front, last := batches[..|batches| - 1], batches[|batches| - 1];
      assert batches == front + [last];
      StretchesIncreasing(whole, front, lo, last.0);
      StretchesSnoc(whole, front, last);
      var parts := Stretches(whole, front);
      assert (parts + [whole[last.0..last.1]])[..|parts|] == parts;
      SliceIncreasing(whole, last.0, last.1);
      assert forall c :: c in whole[lo..last.0] ==> c in whole[..last.0];
      assert forall c :: c in whole[last.0..last.1] ==> c in whole[last.0..];
      JoinIncreasing(whole, last.0, Flat(parts), whole[last.0..last.1]);
      SliceWithin(whole, lo, last.0, lo, hi);
      SliceWithin(whole, last.0, last.1, lo, hi);
    }
  }

  lemma SliceWithin(whole: seq<LiveCycle>, a: nat, b: nat, lo: nat, hi: nat)
    requires lo <= a <= b <= hi <= |whole|
    ensures forall c :: c in whole[a..b] ==> c in whole[lo..hi]
  {
    forall c | c in whole[a..b] ensures c in whole[lo..hi] {
      var k :| 0 <= k < b - a && whole[a..b][k] == c;
      assert whole[lo..hi][a - lo + k] == c;
    }
  }

  lemma {:induction false} FramesSplit(log: seq<Sent>, t: int, lo: nat, mid: nat)
    requires lo <= mid <= |log|
    ensures FramesSince(log, lo, t) == FramesSince(log[..mid], lo, t) + FramesSince(log, mid, t)
  {
    if mid == |log| {
      assert log[..mid] == log;
    } else {
      var front, last := log[..|log| - 1], log[|log| - 1];
      assert log == front + [last] && front[..mid] == log[..mid];
      LogSnoc(front, last, lo, t);
      LogSnoc(front, last, mid, t);
      FramesSplit(front, t, lo, mid);
    }
  }

  lemma NoAppendsInNone()
    ensures AppendsIn([]) == []
  {}

  lemma {:induction false} AppendsConcat(a: seq<Frame>, b: seq<Frame>)
    ensures AppendsIn(a + b) == AppendsIn(a) + AppendsIn(b)
  {
    hide AppendsIn;
    if b == [] {
      assert a + b == a;
      NoAppendsInNone();
    } else {
      var front, last := b[..|b| - 1], b[|b| - 1];
      AppendsConcat(a, front);
      assert a + b == (a + front) + [last] && b == front + [last];
      AppendsSnoc(a + front, last);
      AppendsSnoc(front, last);
    }
  }

  lemma AppendsSplit(log: seq<Sent>, t: int, lo: nat, mid: nat, hi: nat)
    requires lo <= mid <= hi <= |log|
    ensures AppendsBetween(log, t, lo, hi) == AppendsBetween(log, t, lo, mid) + AppendsBetween(log, t, mid, hi)
  {
    hide FramesSince, AppendsIn;
    FramesSplit(log[..hi], t, lo, mid);
    assert log[..hi][..mid] == log[..mid];
    AppendsConcat(FramesSince(log[..mid], lo, t), FramesSince(log[..hi], mid, t));
  }

  /** The appends of a session from position `from` of the log on. */
  function ShareOf(log: seq<Sent>, t: int, from: nat, p: Past): seq<seq<LiveCycle>> {
    if from > p.until then [] else AppendsBetween(log, t, if from < p.session.since then p.session.since else from, p.until)
  }

  function Shares(log: seq<Sent>, t: int, from: nat, ps: seq<Past>): seq<seq<LiveCycle>> {
    if ps == [] then [] else Shares(log, t, from, ps[..|ps| - 1]) + ShareOf(log, t, from, ps[|ps| - 1])
  }

  /** The sessions of a tag, end to end up to `end`. */
  ghost predicate EndToEnd(log: seq<Sent>, t: int, ps: seq<Past>, end: nat) {
    && end <= |log|
    && (forall k :: 0 <= k < |ps| ==> ps[k].session.since <= ps[k].until <= end)
    && (forall i, k :: 0 <= i < k < |ps| ==> ps[i].until <= ps[k].session.since)
    && (forall k :: 0 < k < |ps| ==> ps[k - 1].until == ps[k].session.since)
    && (ps != [] ==> ps[|ps| - 1].until == end)
    && FramesSince(log[..if ps == [] then end else ps[0].session.since], 0, t) == []
  }

  lemma HistoriesEndToEnd(h: Hub, t: int)
    requires HubOk(h)
    ensures EndToEnd(h.log, t, Histories(h, t), |h.log|)
  {
    hide PhaseOf, FramesSince, AppendsIn, Stretches, Sound, Inv, ConnOk;
    assert TagOk(h.log, t, LineOf(h, t));
    assert h.log[..|h.log|] == h.log;
    forall k | 0 <= k < |PastOf(h, t)|
      ensures PastOf(h, t)[k].session.since <= PastOf(h, t)[k].until
    {
      assert PastOk(h.log, t, PastOf(h, t)[k]);
    }
  }

  lemma NoAppendsAtEnd(log: seq<Sent>, t: int, lo: nat, hi: nat)
    requires hi <= lo
    ensures AppendsBetween(log, t, lo, hi) == []
  {}

  lemma {:induction false} SharesTogether(log: seq<Sent>, t: int, from: nat, ps: seq<Past>, end: nat)
    requires EndToEnd(log, t, ps, end) && from <= end
    ensures AppendsBetween(log, t, from, end) == Shares(log, t, from, ps)
    decreases |ps|
  {
    if ps == [] {
      NothingBefore(log, t, from, end);
    } else {
      hide AppendsBetween;
      var front, last := ps[..|ps| - 1], ps[|ps| - 1];
      var mid := last.session.since;
      FrontEndToEnd(log, t, ps, end);
      hide EndToEnd;
      if from <= mid {
        SharesTogether(log, t, from, front, mid);
        AppendsSplit(log, t, from, mid, end);
      } else {
        SharesBefore(log, t, from, front);
      }
    }
  }

  lemma NothingBefore(log: seq<Sent>, t: int, from: nat, end: nat)
    requires from <= end <= |log| && FramesSince(log[..end], 0, t) == []
    ensures AppendsBetween(log, t, from, end) == []
  {
    hide FramesSince;
    FramesSplit(log[..end], t, 0, from);
  }

  lemma FrontEndToEnd(log: seq<Sent>, t: int, ps: seq<Past>, end: nat)
    requires EndToEnd(log, t, ps, end) && ps != []
    ensures var front, last := ps[..|ps| - 1], ps[|ps| - 1];
      && last.session.since <= last.until == end <= |log| && EndToEnd(log, t, front, last.session.since)
      && forall k :: 0 <= k < |front| ==> front[k].until <= last.session.since
  {
    hide FramesSince;
  }

  lemma {:induction false} SharesBefore(log: seq<Sent>, t: int, from: nat, ps: seq<Past>)
    requires forall k :: 0 <= k < |ps| ==> ps[k].until <= from
    ensures Shares(log, t, from, ps) == []
  {
    if ps != [] {
      SharesBefore(log, t, from, ps[..|ps| - 1]);
      var p := ps[|ps| - 1];
      NoAppendsAtEnd(log, t, if from < p.session.since then p.session.since else from, p.until);
    }
  }

  /** In every run the appends of a tag from any point on are its sessions' shares, one session after the other. */
  lemma AppendsAreTheSessions(cfg: Config, events: seq<Event>, tagId: int, from: nat)
    requires from <= |Run(cfg, events).log|
    ensures var h := Run(cfg, events);
      AppendsIn(FramesSince(h.log, from, tagId)) == Shares(h.log, tagId, from, Histories(h, tagId))
  {
    hide FramesSince, AppendsIn, HubOk;
    var h := Run(cfg, events);
    RunOk(cfg, events);
    HistoriesEndToEnd(h, tagId);
    SharesTogether(h.log, tagId, from, Histories(h, tagId), |h.log|);
    assert h.log[..|h.log|] == h.log;
  }

  /** What a subscriber got of a session: its snapshot, if that was taken of it, and the session's later appends. */
  function ToldOf(log: seq<Sent>, t: int, j: Joined, p: Past): seq<LiveCycle>
    requires j.snapshot.Snapshot?
  {
    (if JoinedDuring(p, j) then j.snapshot.cycles else []) + Flat(ShareOf(log, t, j.since, p))
  }

  /**
    A subscriber that lost nothing: what it was handed and has queued is its snapshot and then every later frame of
    the tag; their appends are the sessions' shares in turn; and of no session is a cycle told twice or out of order.
   */
  lemma SnapshotThenAppends(cfg: Config, events: seq<Event>, conn: nat, tagId: int)
    requires conn in Run(cfg, events).subs && Run(cfg, events).subs[conn].tagId == Some(tagId)
    requires Run(cfg, events).subs[conn].lost == 0 && !Run(cfg, events).subs[conn].overflowed
    ensures var h := Run(cfg, events);
      && conn in h.joined
      && var j := h.joined[conn];
         var told := FramesSince(h.log, j.since, tagId);
         && j.snapshot.Snapshot?
         && NonErrors(FramesOf(Kept(h.subs[conn]))) == [j.snapshot] + told
         && AppendsIn(told) == Shares(h.log, tagId, j.since, Histories(h, tagId))
         && forall k :: 0 <= k < |Histories(h, tagId)| ==> Increasing(ToldOf(h.log, tagId, j, Histories(h, tagId)[k]))
  {
    hide NonErrors, FramesOf, Inv, TagOk, NextPhase, AppendsIn, FramesSince, Shares, ToldOf, Increasing, PastsJoint, Joint;
    RunOk(cfg, events);
    var h := Run(cfg, events);
    var q, j := h.subs[conn], h.joined[conn];
    NothingLost(q);
    assert ConnOk(h.log, tagId, LineOf(h, tagId), q, j);
    AppendsAreTheSessions(cfg, events, tagId, j.since);
    forall k | 0 <= k < |Histories(h, tagId)| ensures Increasing(ToldOf(h.log, tagId, j, Histories(h, tagId)[k])) {
      ToldIncreases(h, tagId, q, j, k);
    }
  }

  /** Of the session that was there when the connection subscribed, the log shows the rest after the snapshot. */
  lemma HistoryJoint(h: Hub, t: int, q: Queue, j: Joined, k: nat)
    requires HubOk(h) && ConnOk(h.log, t, LineOf(h, t), q, j)
    requires k < |Histories(h, t)| && JoinedDuring(Histories(h, t)[k], j)
    ensures var p := Histories(h, t)[k];
      && p.until <= |h.log| && Joint(h.log[..p.until], t, p.session, j)
      && ShareOf(h.log, t, j.since, p) == Stretches(p.session.accepted, p.session.batches[j.batches..])
  {
    hide FramesSince, AppendsIn, Stretches, SelectedFrom, Sound, HubOk;
    assert h.log[..|h.log|] == h.log;
  }

  lemma ToldIncreases(h: Hub, t: int, q: Queue, j: Joined, k: nat)
    requires HubOk(h) && ConnOk(h.log, t, LineOf(h, t), q, j) && k < |Histories(h, t)|
    ensures Increasing(ToldOf(h.log, t, j, Histories(h, t)[k]))
  {
    hide HubOk, ConnOk, Sound, Stretches, AppendsBetween, Joint, Increasing, Flat;
    var p := Histories(h, t)[k];
    HistoryShown(h, t, k);
    if JoinedDuring(p, j) {
      HistoryJoint(h, t, q, j, k);
      JointIncreasing(h.log[..p.until], t, p.session, j);
    } else {
      var share := ShareOf(h.log, t, j.since, p);
      assert [] + Flat(share) == Flat(share);
      if j.since <= p.until {
        WholeIncreasing(p.session);
      } else {
        FlatOfNone();
      }
    }
  }

  lemma FlatOfNone()
    ensures Flat([]) == [] && Increasing(Flat([]))
  {}

  lemma WholeIncreasing(s: Session)
    requires Sound(s)
    ensures Increasing(Flat(Stretches(s.accepted, s.batches)))
  {
    BatchBounds(s);
    SettledBounds(s);
    hide CursorAtEnd, AllAccountedFor, Chain, Increasing, Flat, Stretches;
    StretchesIncreasing(s.accepted, s.batches, 0, Settled(s));
  }

  /** The batches sent since joining lie, in order, between what was settled then and what is now. */
  lemma BatchesSince(log: seq<Sent>, t: int, s: Session, j: Joined)
    requires Joint(log, t, s, j) && Sound(s)
    ensures 0 <= j.settled <= Settled(s) <= |s.accepted| && j.batches <= |s.batches|
    ensures var later := s.batches[j.batches..];
      && (forall b :: 0 <= b < |later| ==> j.settled <= later[b].0 < later[b].1 <= Settled(s))
      && (forall b, c :: 0 <= b < c < |later| ==> later[b].1 <= later[c].0)
  {
    hide Chain, CursorAtEnd, AllAccountedFor, RangesIn, Suffix, AppendsIn, FramesSince, Stretches, Increasing;
    BatchBounds(s);
    var later := s.batches[j.batches..];
    forall b | 0 <= b < |later| ensures later[b] == s.batches[j.batches + b] {}
  }

  lemma JointIncreasing(log: seq<Sent>, tagId: int, s: Session, j: Joined)
    requires Joint(log, tagId, s, j) && Sound(s)
    ensures Increasing(j.snapshot.cycles + Flat(Stretches(s.accepted, s.batches[j.batches..])))
  {
    BatchesSince(log, tagId, s, j);
    hide BatchesInOrder, CursorAtEnd, AllAccountedFor, RangesIn, Suffix, AppendsIn, FramesSince, Stretches, Increasing, Flat,
      Chain;
    var later := s.batches[j.batches..];
    StretchesIncreasing(s.accepted, later, j.settled, Settled(s));
    SliceWithin(s.accepted, j.settled, Settled(s), j.settled, |s.accepted|);
    assert s.accepted[j.settled..|s.accepted|] == s.accepted[j.settled..];
    JoinIncreasing(s.accepted, j.settled, j.snapshot.cycles, Flat(Stretches(s.accepted, later)));
  }

  // ---------------------------------------------------------------- no gaps

  lemma {:induction false} RecentMembers(sent: seq<LiveCycle>, latest: int, historyMs: int, c: LiveCycle)
    ensures c in Recent(sent, latest, historyMs) <==> c in sent && latest - c.tMs <= historyMs
  {
    if sent != [] {
      var front, last := sent[..|sent| - 1], sent[|sent| - 1];
      assert sent == front + [last];
      RecentMembers(front, latest, historyMs, c);
    }
  }

  /** What a session has sent and still buffers. */
  function SentBuffer(s: Session): seq<LiveCycle>
    requires Sound(s)
  {
    s.accepted[|s.accepted| - |s.cycles|..Settled(s)]
  }

  /** In every run a snapshot holds exactly the buffered cycles that have been sent and are recent enough, no pending one. */
  lemma SnapshotIsRecent(cfg: Config, events: seq<Event>, tagId: int, historyMs: int)
    requires tagId in Run(cfg, events).sessions
    ensures var h := Run(cfg, events);
      && Sound(h.sessions[tagId])
      && var sent, snapshot := SentBuffer(h.sessions[tagId]), SnapshotOf(h, tagId, historyMs);
         && snapshot.Snapshot? && Increasing(snapshot.cycles)
         && (forall c :: c in snapshot.cycles <==> c in sent && sent[|sent| - 1].tMs - c.tMs <= historyMs)
    ensures var s, snapshot := Run(cfg, events).sessions[tagId], SnapshotOf(Run(cfg, events), tagId, historyMs);
      && snapshot.tagId == tagId && snapshot.of == Some(Identity(s.sessionId, tagId, s.bootId))
      && snapshot.configRev == s.configRev && snapshot.active == s.active && snapshot.historyMs == historyMs
  {
    hide Run, Sound, SentPart, SentBuffer, TagsOk, ConnsOk;
    RunOk(cfg, events);
    var h := Run(cfg, events);
    SessionSound(h, tagId);
    var s := h.sessions[tagId];
    var sent := SentBuffer(s);
    SentPartIs(s);
    var latest := if sent == [] then 0 else sent[|sent| - 1].tMs;
    SentPartIncreases(s);
    RecentSelects(sent, latest, historyMs);
    forall c ensures c in Recent(sent, latest, historyMs) <==> c in sent && latest - c.tMs <= historyMs {
      RecentMembers(sent, latest, historyMs, c);
    }
  }

  lemma SentPartIs(s: Session)
    requires Sound(s)
    ensures SentPart(s) == SentBuffer(s)
  {
    hide Chain, CursorAtEnd, BatchesInOrder, InBatch;
  }

  /**
    A subscriber that lost nothing misses nothing either: of every session it was there for or that came later, each
    cycle settled since it joined is in an append it was given, unless the cycle was evicted before it could be sent.
   */
  lemma NothingMissing(cfg: Config, events: seq<Event>, conn: nat, tagId: int, k: nat, i: nat)
    requires conn in Run(cfg, events).subs && Run(cfg, events).subs[conn].tagId == Some(tagId)
    requires conn in Run(cfg, events).joined && k < |Histories(Run(cfg, events), tagId)|
    requires var p, j := Histories(Run(cfg, events), tagId)[k], Run(cfg, events).joined[conn];
      && j.since <= p.until && i < Settled(p.session) && i !in p.session.unsent
      && (JoinedDuring(p, j) ==> j.settled <= i)
    ensures var h := Run(cfg, events);
      var p := Histories(h, tagId)[k];
      i < |p.session.accepted| && p.session.accepted[i] in Flat(ShareOf(h.log, tagId, h.joined[conn].since, p))
  {
    hide Inv, TagOk, NextPhase, Run, PastsJoint, Joint, ShareOf, Flat;
    RunOk(cfg, events);
    var h := Run(cfg, events);
    var j := h.joined[conn];
    assert ConnOk(h.log, tagId, LineOf(h, tagId), h.subs[conn], j);
    SentSinceJoining(h, tagId, h.subs[conn], j, k, i);
  }

  lemma SentSinceJoining(h: Hub, t: int, q: Queue, j: Joined, k: nat, i: nat)
    requires HubOk(h) && ConnOk(h.log, t, LineOf(h, t), q, j) && k < |Histories(h, t)|
    requires var p := Histories(h, t)[k];
      j.since <= p.until && i < Settled(p.session) && i !in p.session.unsent && (JoinedDuring(p, j) ==> j.settled <= i)
    ensures var p := Histories(h, t)[k];
      i < |p.session.accepted| && p.session.accepted[i] in Flat(ShareOf(h.log, t, j.since, p))
  {
    hide HubOk, ConnOk, AppendsBetween, Flat, Stretches, Sound, SelectedFrom;
    var p := Histories(h, t)[k];
    var s := p.session;
    HistoryShown(h, t, k);
    BatchBounds(s);
    SettledBounds(s);
    ExactlyOneFate(s, i);
    var b :| 0 <= b < |s.batches| && s.batches[b].0 <= i < s.batches[b].1;
    var first := 0;
    if JoinedDuring(p, j) {
      HistoryJoint(h, t, q, j, k);
      JointFrom(h.log[..p.until], t, s, j, b, i);
      first := j.batches;
    }
    var later := s.batches[first..];
    assert later[b - first] == s.batches[b];
    forall c | 0 <= c < |later| ensures 0 <= later[c].0 < later[c].1 <= |s.accepted| {
      assert later[c] == s.batches[first + c];
    }
    FlatHolds(s.accepted, later, b - first, i);
  }

  /** What was settled after joining is in a batch sent after joining. */
  lemma JointFrom(log: seq<Sent>, t: int, s: Session, j: Joined, b: nat, i: nat)
    requires Joint(log, t, s, j) && j.settled <= i && b < |s.batches| && s.batches[b].0 <= i < s.batches[b].1
    ensures j.batches <= b && j.batches <= |s.batches|
  {}

  lemma {:induction false} FlatHolds(whole: seq<LiveCycle>, batches: seq<(int, int)>, b: nat, i: nat)
    requires b < |batches| && forall c :: 0 <= c < |batches| ==> 0 <= batches[c].0 < batches[c].1 <= |whole|
    requires batches[b].0 <= i < batches[b].1
    ensures whole[i] in Flat(Stretches(whole, batches))
    decreases |batches|
  {
    var k := |batches| - 1;
    var front := batches[..k];
    assert batches == front + [batches[k]];
    StretchesSnoc(whole, front, batches[k]);
    var parts := Stretches(whole, front);
    assert (parts + [Stretch(whole, batches[k])])[..|parts|] == parts;
    if b == k {
      var part := Stretch(whole, batches[k]);
      assert part[i - batches[k].0] == whole[i];
    } else {
      FlatHolds(whole, front, b, i);
    }
  }
}
