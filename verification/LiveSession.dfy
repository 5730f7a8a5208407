/** One tag's live session as a value: unrolling, buffering and eviction (live/hub.py). */
module LiveSessions {
  import opened Prelude
  import opened Packets
  import opened LiveTypes

  /**
   * The last four fields are history: what was accepted, which stretches of it were sent, which positions were evicted
   * while still pending, and where in the log the session begins.
   */
  datatype Session = Session(
    tagId: int, bootId: int, sessionId: Option<int>, configRev: Option<int>, lastSeen: real, active: bool,
    cycles: seq<LiveCycle>, pending: seq<LiveCycle>,
    lastSeq: Option<int>, lastTRaw: int, lastSeqN: int, lastTN: int, rangeCount: int,
    accepted: seq<LiveCycle>, batches: seq<(int, int)>, unsent: set<int>, since: nat)

  function NewSession(tagId: int, bootId: int, sessionId: Option<int>, configRev: Option<int>, now: real, since: nat): Session {
    Session(tagId, bootId, sessionId, configRev, now, true, [], [], None, 0, 0, 0, 0, [], [], {}, since)
  }

  function IdentityOf(s: Session): Identity {
    Identity(s.sessionId, s.tagId, s.bootId)
  }

  /** Whether `seqNo` is ahead of `lastSeq`; a difference of exactly 2^31 counts as ahead. */
  predicate SeqAdvances(seqNo: int, lastSeq: int) {
    0 < Mask(seqNo - lastSeq) <= HALF
  }

  /** The time step from the previous cycle; only a drop of more than 2^31 is taken for a wrap. */
  function TStep(t: int, lastT: int): int {
    if t - lastT < -HALF then t - lastT + FULL else t - lastT
  }

  /** The record with its counters unrolled against the session's last accepted cycle. */
  function Unrolled(s: Session, c: CycleRecord): LiveCycle {
    match s.lastSeq
    case None => LiveCycle(c, c.tTagMs, c.seqNo, None)
    case Some(last) =>
      var step := Mask(c.seqNo - last);
      var t := s.lastTN + TStep(c.tTagMs, s.lastTRaw);
      LiveCycle(c, t, s.lastSeqN + step, if step == 1 then Some(t - s.lastTN) else None)
  }

  predicate Late(s: Session, c: CycleRecord) {
    s.lastSeq.Some? && !SeqAdvances(c.seqNo, s.lastSeq.value)
  }

  function Accept(s: Session, c: CycleRecord): Session {
    if Late(s, c) then s
    else
      var live := Unrolled(s, c);
      s.(lastSeq := Some(c.seqNo), lastTRaw := c.tTagMs, lastSeqN := live.seqN, lastTN := live.tMs,
         cycles := s.cycles + [live], rangeCount := s.rangeCount + |c.ranges|,
         pending := s.pending + [live], accepted := s.accepted + [live])
  }

  function AcceptAll(s: Session, cs: seq<CycleRecord>): (r: Session)
    ensures r.tagId == s.tagId
  {
    if cs == [] then s else Accept(AcceptAll(s, cs[..|cs| - 1]), cs[|cs| - 1])
  }

  function RangesIn(cycles: seq<LiveCycle>): nat {
    if cycles == [] then 0 else |cycles[0].record.ranges| + RangesIn(cycles[1..])
  }

  /** Forgets the oldest cycle, and its pending copy when nothing older remains buffered. */
  function PopOldest(s: Session): Session
    requires s.cycles != []
  {
    var popped := s.(cycles := s.cycles[1..], rangeCount := s.rangeCount - |s.cycles[0].record.ranges|);
    if |s.pending| > |popped.cycles| then popped.(pending := s.pending[1..], unsent := s.unsent + {Settled(s)}) else popped
  }

  predicate OverLimit(s: Session, maxCycles: nat, maxRanges: nat) {
    |s.cycles| > maxCycles || s.rangeCount > maxRanges
  }

  function TrimCount(s: Session, maxCycles: nat, maxRanges: nat): (r: Session)
    ensures r.tagId == s.tagId
    decreases |s.cycles|
  {
    if s.cycles != [] && OverLimit(s, maxCycles, maxRanges) then TrimCount(PopOldest(s), maxCycles, maxRanges) else s
  }

  predicate TooOld(s: Session, latest: int, retentionMs: int) {
    |s.cycles| > 1 && latest - s.cycles[0].tMs > retentionMs
  }

  function TrimAge(s: Session, latest: int, retentionMs: int): (r: Session)
    ensures r.tagId == s.tagId
    decreases |s.cycles|
  {
    if TooOld(s, latest, retentionMs) then TrimAge(PopOldest(s), latest, retentionMs) else s
  }

  function Trim(s: Session, maxCycles: nat, maxRanges: nat, retentionMs: int): (r: Session)
    ensures r.tagId == s.tagId
  {
    var counted := TrimCount(s, maxCycles, maxRanges);
    if counted.cycles == [] then counted
    else TrimAge(counted, counted.cycles[|counted.cycles| - 1].tMs, retentionMs)
  }

  // ---------------------------------------------------------------- what every operation keeps

  /** `c` was unrolled against `p`. */
  ghost predicate Follows(p: LiveCycle, c: LiveCycle) {
    var step := Mask(c.record.seqNo - p.record.seqNo);
    && 0 < step <= HALF
    && c.seqN == p.seqN + step
    && c.tMs == p.tMs + TStep(c.record.tTagMs, p.record.tTagMs)
    && c.dtMs == if step == 1 then Some(c.tMs - p.tMs) else None
  }

  /** The accepted cycles: the first raw, each later one unrolled against its predecessor. */
  ghost predicate Chain(a: seq<LiveCycle>) {
    && (a != [] ==> a[0] == LiveCycle(a[0].record, a[0].record.tTagMs, a[0].record.seqNo, None))
    && forall k :: 0 < k < |a| ==> Follows(a[k - 1], a[k])
  }

  ghost predicate Suffix(part: seq<LiveCycle>, whole: seq<LiveCycle>) {
    |part| <= |whole| && part == whole[|whole| - |part|..]
  }

  ghost predicate InBatch(batches: seq<(int, int)>, i: nat) {
    exists b :: 0 <= b < |batches| && batches[b].0 <= i < batches[b].1
  }

  /** The number of accepted cycles that are no longer pending. */
  function Settled(s: Session): int {
    |s.accepted| - |s.pending|
  }

  /** Sent stretches are non-empty, in order, disjoint, and lie among the settled cycles. */
  ghost predicate BatchesInOrder(s: Session) {
    && (forall b :: 0 <= b < |s.batches| ==> 0 <= s.batches[b].0 < s.batches[b].1 <= Settled(s))
    && (forall b, c :: 0 <= b < c < |s.batches| ==> s.batches[b].1 <= s.batches[c].0)
  }

  ghost predicate CursorAtEnd(s: Session) {
    if s.accepted == [] then s.lastSeq == None
    else
      var last := s.accepted[|s.accepted| - 1];
      && s.lastSeq == Some(last.record.seqNo) && s.lastTRaw == last.record.tTagMs
      && s.lastSeqN == last.seqN && s.lastTN == last.tMs
  }

  ghost predicate Sound(s: Session) {
    && Suffix(s.cycles, s.accepted) && Suffix(s.pending, s.accepted) && |s.pending| <= |s.cycles|
    && s.rangeCount == RangesIn(s.cycles)
    && (!s.active ==> s.pending == [])
    && Chain(s.accepted) && CursorAtEnd(s)
    && BatchesInOrder(s)
    && AllAccountedFor(s)
  }

  /** What is no longer pending was either sent or evicted unsent, never both; only what has left the buffer was evicted. */
  ghost predicate AllAccountedFor(s: Session) {
    && (forall i :: i in s.unsent ==> 0 <= i < Settled(s) && i < |s.accepted| - |s.cycles|)
    && (forall i: nat :: i < Settled(s) ==> (InBatch(s.batches, i) <==> i !in s.unsent))
  }

  lemma {:induction false} RangesInSnoc(cycles: seq<LiveCycle>, c: LiveCycle)
    ensures RangesIn(cycles + [c]) == RangesIn(cycles) + |c.record.ranges|
  {
    if cycles == [] {
      assert [c][1..] == [];
    } else {
      RangesInSnoc(cycles[1..], c);
      assert (cycles + [c])[1..] == cycles[1..] + [c];
    }
  }

  lemma AcceptChain(s: Session, c: CycleRecord)
    requires Chain(s.accepted) && CursorAtEnd(s)
    ensures Chain(Accept(s, c).accepted) && CursorAtEnd(Accept(s, c))
  {
    if !Late(s, c) {
      var r := Accept(s, c);
      forall k | 0 < k < |r.accepted| ensures Follows(r.accepted[k - 1], r.accepted[k]) {
        if k < |s.accepted| {
          assert Follows(s.accepted[k - 1], s.accepted[k]);
        }
      }
    }
  }

  lemma SuffixSnoc(part: seq<LiveCycle>, whole: seq<LiveCycle>, c: LiveCycle)
    requires Suffix(part, whole)
    ensures Suffix(part + [c], whole + [c])
  {}

  lemma AcceptSound(s: Session, c: CycleRecord)
    requires Sound(s) && s.active
    ensures Sound(Accept(s, c)) && Accept(s, c).active
  {
    hide RangesIn, Chain, CursorAtEnd, Suffix, Unrolled;
    AcceptChain(s, c);
    if !Late(s, c) {
      var live := Unrolled(s, c);
      RangesInSnoc(s.cycles, live);
      assert live.record == c by {
        UnrolledRecord(s, c);
      }
      SuffixSnoc(s.cycles, s.accepted, live);
      SuffixSnoc(s.pending, s.accepted, live);
      assert Settled(Accept(s, c)) == Settled(s);
    }
  }

  lemma UnrolledRecord(s: Session, c: CycleRecord)
    ensures Unrolled(s, c).record == c
  {}

  lemma {:induction false} AcceptAllSound(s: Session, cs: seq<CycleRecord>)
    requires Sound(s) && s.active
    ensures Sound(AcceptAll(s, cs)) && AcceptAll(s, cs).active
    ensures AcceptAll(s, cs).batches == s.batches && s.accepted <= AcceptAll(s, cs).accepted
    ensures Settled(AcceptAll(s, cs)) == Settled(s)
    ensures SameSession(AcceptAll(s, cs), s)
    ensures |AcceptAll(s, cs).accepted| <= |s.accepted| + |cs|
  {
    hide Sound;
    if cs != [] {
      AcceptAllSound(s, cs[..|cs| - 1]);
      AcceptSound(AcceptAll(s, cs[..|cs| - 1]), cs[|cs| - 1]);
    }
  }

  /** The fields neither accepting nor evicting touches. */
  ghost predicate SameSession(r: Session, s: Session) {
    && r.tagId == s.tagId && r.bootId == s.bootId && r.sessionId == s.sessionId && r.configRev == s.configRev
    && r.lastSeen == s.lastSeen && r.active == s.active && r.since == s.since
  }

  /** Evicting keeps a session sound; the position goes down as unsent exactly when it had not been sent. */
  lemma PopOldestSound(s: Session)
    requires Sound(s) && s.cycles != []
    ensures Sound(PopOldest(s))
    ensures SameSession(PopOldest(s), s)
    ensures PopOldest(s).accepted == s.accepted && PopOldest(s).batches == s.batches
    ensures Settled(PopOldest(s)) >= Settled(s)
    ensures var oldest := |s.accepted| - |s.cycles|;
      PopOldest(s).unsent == s.unsent + if oldest >= Settled(s) then {oldest} else {}
  {
    hide Chain, CursorAtEnd, AllAccountedFor;
    var r := PopOldest(s);
    SuffixTail(s.cycles, s.accepted);
    if |s.pending| > |r.cycles| {
      SuffixTail(s.pending, s.accepted);
    }
    CursorIgnoresBuffer(s, r);
    PopAccountedFor(s);
  }

  lemma PopAccountedFor(s: Session)
    requires AllAccountedFor(s) && BatchesInOrder(s) && s.cycles != [] && |s.pending| <= |s.cycles| <= |s.accepted|
    ensures AllAccountedFor(PopOldest(s))
  {
    if |s.pending| == |s.cycles| {
      assert !InBatch(s.batches, Settled(s));
    }
  }

  lemma SuffixTail(part: seq<LiveCycle>, whole: seq<LiveCycle>)
    requires Suffix(part, whole) && part != []
    ensures Suffix(part[1..], whole)
  {}

  lemma CursorIgnoresBuffer(s: Session, r: Session)
    requires CursorAtEnd(s)
    requires r == s.(cycles := r.cycles, pending := r.pending, rangeCount := r.rangeCount, unsent := r.unsent)
    ensures CursorAtEnd(r)
  {}

  /** What a run of evictions keeps. */
  ghost predicate Evicted(r: Session, s: Session) {
    && Sound(r) && SameSession(r, s) && r.accepted == s.accepted && r.batches == s.batches
    && Settled(r) >= Settled(s) && |r.cycles| <= |s.cycles| && r.rangeCount <= s.rangeCount
  }

  lemma PopEvicted(s: Session)
    requires Sound(s) && s.cycles != []
    ensures Evicted(PopOldest(s), s) && PopOldest(s).cycles == s.cycles[1..]
  {
    PopOldestSound(s);
    hide Sound;
  }

  lemma EvictedTwice(s: Session, mid: Session, r: Session)
    requires Evicted(mid, s) && Evicted(r, mid)
    ensures Evicted(r, s)
  {
    hide Sound;
  }

  lemma NothingEvicted(s: Session)
    requires Sound(s)
    ensures Evicted(s, s) && (s.cycles == [] ==> s.rangeCount == 0)
  {
    hide Chain, CursorAtEnd, AllAccountedFor, BatchesInOrder;
  }

  lemma EvictedIsSound(r: Session, s: Session)
    requires Evicted(r, s)
    ensures Sound(r)
  {}

  lemma {:induction false} TrimCountSound(s: Session, maxCycles: nat, maxRanges: nat)
    requires Sound(s)
    ensures Evicted(TrimCount(s, maxCycles, maxRanges), s)
    ensures !OverLimit(TrimCount(s, maxCycles, maxRanges), maxCycles, maxRanges)
    decreases |s.cycles|
  {
    NothingEvicted(s);
    if s.cycles != [] && OverLimit(s, maxCycles, maxRanges) {
      PopEvicted(s);
      hide Sound, PopOldest;
      EvictedIsSound(PopOldest(s), s);
      hide Evicted;
      TrimCountSound(PopOldest(s), maxCycles, maxRanges);
      EvictedTwice(s, PopOldest(s), TrimCount(s, maxCycles, maxRanges));
    }
  }

  lemma {:induction false} TrimAgeSound(s: Session, latest: int, retentionMs: int)
    requires Sound(s) && s.cycles != [] && latest == s.cycles[|s.cycles| - 1].tMs
    ensures var r := TrimAge(s, latest, retentionMs);
      && Evicted(r, s)
      && r.cycles != [] && r.cycles[|r.cycles| - 1] == s.cycles[|s.cycles| - 1]
      && !TooOld(r, latest, retentionMs)
    decreases |s.cycles|
  {
    NothingEvicted(s);
    if TooOld(s, latest, retentionMs) {
      PopEvicted(s);
      hide Sound, PopOldest;
      EvictedIsSound(PopOldest(s), s);
      hide Evicted;
      TrimAgeSound(PopOldest(s), latest, retentionMs);
      EvictedTwice(s, PopOldest(s), TrimAge(s, latest, retentionMs));
    }
  }

  /** After trimming the session is within its limits, and its oldest cycle within retention of its newest. */
  lemma TrimSound(s: Session, maxCycles: nat, maxRanges: nat, retentionMs: nat)
    requires Sound(s)
    ensures var r := Trim(s, maxCycles, maxRanges, retentionMs);
      && Evicted(r, s)
      && |r.cycles| <= maxCycles && r.rangeCount <= maxRanges
      && (r.cycles != [] ==> r.cycles[|r.cycles| - 1].tMs - r.cycles[0].tMs <= retentionMs)
  {
    hide Sound, SameSession, TrimCount, TrimAge;
    TrimCountSound(s, maxCycles, maxRanges);
    var counted := TrimCount(s, maxCycles, maxRanges);
    if counted.cycles != [] {
      TrimAgeSound(counted, counted.cycles[|counted.cycles| - 1].tMs, retentionMs);
      EvictedTwice(s, counted, Trim(s, maxCycles, maxRanges, retentionMs));
    }
  }

  // ---------------------------------------------------------------- trimming no more than needed

  /** Few enough cycles, few enough ranges, and the first recent enough or alone. */
  predicate WithinLimits(cycles: seq<LiveCycle>, maxCycles: nat, maxRanges: nat, retentionMs: int) {
    && |cycles| <= maxCycles && RangesIn(cycles) <= maxRanges
    && (|cycles| <= 1 || cycles[|cycles| - 1].tMs - cycles[0].tMs <= retentionMs)
  }

  /** `r` buffers what `s` does from position `n` on, and has pending what of that was pending. */
  ghost predicate CutAt(r: Session, s: Session, n: nat) {
    && n <= |s.cycles| && r.cycles == s.cycles[n..]
    && r.pending == if |s.pending| > |r.cycles| then s.pending[|s.pending| - |r.cycles|..] else s.pending
  }

  lemma CutTwice(s: Session, mid: Session, r: Session, m: nat, n: nat)
    requires CutAt(mid, s, m) && CutAt(r, mid, n)
    ensures CutAt(r, s, m + n)
  {}

  lemma PopCuts(s: Session)
    requires Sound(s) && s.cycles != []
    ensures Sound(PopOldest(s)) && CutAt(PopOldest(s), s, 1) && PopOldest(s).cycles == s.cycles[1..]
  {
    PopOldestSound(s);
    SoundBuffers(s);
    hide Sound;
  }

  lemma CutBounds(r: Session, s: Session, n: nat)
    requires CutAt(r, s, n)
    ensures n <= |s.cycles|
  {}

  lemma NothingCut(s: Session)
    requires Sound(s)
    ensures CutAt(s, s, 0)
  {
    SoundBuffers(s);
    hide Sound;
  }

  predicate TooMuch(cycles: seq<LiveCycle>, maxCycles: nat, maxRanges: nat) {
    |cycles| > maxCycles || RangesIn(cycles) > maxRanges
  }

  lemma TooMuchShifted(cycles: seq<LiveCycle>, maxCycles: nat, maxRanges: nat, m: nat)
    requires 0 <= m < |cycles| && TooMuch(cycles, maxCycles, maxRanges)
    requires forall k :: 0 <= k < m ==> TooMuch(cycles[1..][k..], maxCycles, maxRanges)
    ensures forall k :: 0 <= k < m + 1 ==> TooMuch(cycles[k..], maxCycles, maxRanges)
  {
    hide TooMuch;
    forall k | 0 <= k < m + 1 ensures TooMuch(cycles[k..], maxCycles, maxRanges) {
      if k == 0 {
        assert cycles[0..] == cycles;
      } else {
        assert cycles[1..][k - 1..] == cycles[k..];
      }
    }
  }

  lemma {:induction false} TrimCountCuts(s: Session, maxCycles: nat, maxRanges: nat) returns (n: nat)
    requires Sound(s)
    ensures CutAt(TrimCount(s, maxCycles, maxRanges), s, n)
    ensures forall k :: 0 <= k < n ==> TooMuch(s.cycles[k..], maxCycles, maxRanges)
    decreases |s.cycles|
  {
    hide Sound, PopOldest, CutAt, RangesIn;
    if s.cycles != [] && OverLimit(s, maxCycles, maxRanges) {
      var p := PopOldest(s);
      SoundBuffers(s);
      PopCuts(s);
      var m := TrimCountCuts(p, maxCycles, maxRanges);
      n := m + 1;
      CutBounds(TrimCount(s, maxCycles, maxRanges), p, m);
      TooMuchShifted(s.cycles, maxCycles, maxRanges, m);
      hide TooMuch;
      CutTwice(s, p, TrimCount(s, maxCycles, maxRanges), 1, m);
    } else {
      n := 0;
      NothingCut(s);
    }
  }

  /** `n` oldest cycles go for their number and their ranges alone, and one fewer would not do. */
  ghost predicate CountedOut(cycles: seq<LiveCycle>, n: int, maxCycles: nat, maxRanges: nat) {
    && 0 <= n <= |cycles| && !TooMuch(cycles[n..], maxCycles, maxRanges)
    && forall k :: 0 <= k < n ==> TooMuch(cycles[k..], maxCycles, maxRanges)
  }

  lemma TrimCountsFewest(s: Session, maxCycles: nat, maxRanges: nat)
    requires Sound(s)
    ensures CountedOut(s.cycles, |s.cycles| - |TrimCount(s, maxCycles, maxRanges).cycles|, maxCycles, maxRanges)
  {
    hide Sound, TrimCount, Evicted, RangesIn;
    var n := TrimCountCuts(s, maxCycles, maxRanges);
    TrimCountSound(s, maxCycles, maxRanges);
    EvictedIsSound(TrimCount(s, maxCycles, maxRanges), s);
    SoundBuffers(TrimCount(s, maxCycles, maxRanges));
  }

  lemma SoundBuffers(s: Session)
    requires Sound(s)
    ensures |s.pending| <= |s.cycles| <= |s.accepted| && s.rangeCount == RangesIn(s.cycles)
  {}

  lemma {:induction false} TrimAgeCuts(s: Session, latest: int, retentionMs: int) returns (n: nat)
    requires Sound(s)
    ensures CutAt(TrimAge(s, latest, retentionMs), s, n)
    ensures n == 0 || n < |s.cycles|
    ensures forall k :: 0 <= k < n ==> latest - s.cycles[k].tMs > retentionMs
    decreases |s.cycles|
  {
    hide Sound, CutAt, PopOldest;
    if TooOld(s, latest, retentionMs) {
      var p := PopOldest(s);
      PopCuts(s);
      var m := TrimAgeCuts(p, latest, retentionMs);
      n := m + 1;
      CutBounds(TrimAge(s, latest, retentionMs), p, m);
      CutTwice(s, p, TrimAge(s, latest, retentionMs), 1, m);
      OneOlder(s.cycles, m, latest, retentionMs);
    } else {
      n := 0;
      NothingCut(s);
    }
  }

  lemma OneOlder(cycles: seq<LiveCycle>, m: nat, latest: int, retentionMs: int)
    requires m < |cycles| && latest - cycles[0].tMs > retentionMs
    requires forall k :: 0 <= k < m ==> latest - cycles[1..][k].tMs > retentionMs
    ensures forall k :: 0 <= k < m + 1 ==> latest - cycles[k].tMs > retentionMs
  {
    forall k | 0 <= k < m + 1 ensures latest - cycles[k].tMs > retentionMs {
      assert k > 0 ==> cycles[1..][k - 1] == cycles[k];
    }
  }

  /** Trimming drops the fewest cycles from the front that leave the rest within all limits. */
  lemma TrimExactly(s: Session, maxCycles: nat, maxRanges: nat, retentionMs: nat) returns (n: nat)
    requires Sound(s)
    ensures CutAt(Trim(s, maxCycles, maxRanges, retentionMs), s, n)
    ensures WithinLimits(s.cycles[n..], maxCycles, maxRanges, retentionMs)
    ensures forall k :: 0 <= k < n ==> !WithinLimits(s.cycles[k..], maxCycles, maxRanges, retentionMs)
  {
    hide Sound, RangesIn, TrimCount, TrimAge, Evicted, TooMuch;
    var counted := TrimCount(s, maxCycles, maxRanges);
    var m := TrimCountCuts(s, maxCycles, maxRanges);
    TrimCountSound(s, maxCycles, maxRanges);
    EvictedIsSound(counted, s);
    TrimLeavesWithin(s, maxCycles, maxRanges, retentionMs);
    forall k | 0 <= k < m ensures !WithinLimits(s.cycles[k..], maxCycles, maxRanges, retentionMs) {
      NotWithin(s.cycles[k..], maxCycles, maxRanges, retentionMs);
    }
    if counted.cycles == [] {
      n := m;
    } else {
      var latest := counted.cycles[|counted.cycles| - 1].tMs;
      var more := TrimAgeCuts(counted, latest, retentionMs);
      n := m + more;
      CutTwice(s, counted, Trim(s, maxCycles, maxRanges, retentionMs), m, more);
      forall k | m <= k < n ensures !WithinLimits(s.cycles[k..], maxCycles, maxRanges, retentionMs) {
        assert counted.cycles[k - m] == s.cycles[k];
        Aged(s.cycles, k, maxCycles, maxRanges, retentionMs);
      }
    }
  }

  /** `r` is `s` less the fewest oldest cycles whose loss brings it within all limits. */
  ghost predicate FewestDropped(r: Session, s: Session, maxCycles: nat, maxRanges: nat, retentionMs: int) {
    exists n: nat ::
      && CutAt(r, s, n) && WithinLimits(s.cycles[n..], maxCycles, maxRanges, retentionMs)
      && forall k :: 0 <= k < n ==> !WithinLimits(s.cycles[k..], maxCycles, maxRanges, retentionMs)
  }

  lemma TrimDropsFewest(s: Session, maxCycles: nat, maxRanges: nat, retentionMs: nat)
    requires Sound(s)
    ensures FewestDropped(Trim(s, maxCycles, maxRanges, retentionMs), s, maxCycles, maxRanges, retentionMs)
  {
    hide Sound, Trim, WithinLimits;
    var n := TrimExactly(s, maxCycles, maxRanges, retentionMs);
  }

  lemma TrimLeavesWithin(s: Session, maxCycles: nat, maxRanges: nat, retentionMs: nat)
    requires Sound(s)
    ensures WithinLimits(Trim(s, maxCycles, maxRanges, retentionMs).cycles, maxCycles, maxRanges, retentionMs)
  {
    var r := Trim(s, maxCycles, maxRanges, retentionMs);
    TrimSound(s, maxCycles, maxRanges, retentionMs);
    EvictedIsSound(r, s);
    SoundBuffers(r);
    hide Sound, RangesIn, Trim, Evicted;
  }

  lemma NotWithin(cycles: seq<LiveCycle>, maxCycles: nat, maxRanges: nat, retentionMs: nat)
    requires TooMuch(cycles, maxCycles, maxRanges)
    ensures !WithinLimits(cycles, maxCycles, maxRanges, retentionMs)
  {}

  lemma Aged(cycles: seq<LiveCycle>, k: nat, maxCycles: nat, maxRanges: nat, retentionMs: nat)
    requires k < |cycles| - 1 && cycles[|cycles| - 1].tMs - cycles[k].tMs > retentionMs
    ensures !WithinLimits(cycles[k..], maxCycles, maxRanges, retentionMs)
  {}

  ghost predicate TimesNeverGoBack(cycles: seq<LiveCycle>) {
    forall i, j :: 0 <= i < j < |cycles| ==> cycles[i].tMs <= cycles[j].tMs
  }

  /** When times never go back, the oldest cycle being recent enough means they all are. */
  lemma AllWithinRetention(cycles: seq<LiveCycle>, retentionMs: nat)
    requires TimesNeverGoBack(cycles)
    requires cycles != [] ==> cycles[|cycles| - 1].tMs - cycles[0].tMs <= retentionMs
    ensures forall i :: 0 <= i < |cycles| ==> cycles[|cycles| - 1].tMs - cycles[i].tMs <= retentionMs
  {}

  /** Unrolled numbers strictly increase along a chain. */
  lemma {:induction false} ChainIncreases(a: seq<LiveCycle>, i: nat, j: nat)
    requires Chain(a) && i < j < |a|
    ensures a[i].seqN < a[j].seqN
    decreases j
  {
    assert Follows(a[j - 1], a[j]);
    if i < j - 1 {
      ChainIncreases(a, i, j - 1);
    }
  }

  /** Exactly one fate: still pending, sent in exactly one append, or evicted while pending and out of the buffer. */
  lemma ExactlyOneFate(s: Session, i: nat)
    requires Sound(s) && i < |s.accepted|
    ensures i >= Settled(s) ==> s.accepted[i] == s.pending[i - Settled(s)] && !InBatch(s.batches, i) && i !in s.unsent
    ensures i < Settled(s) ==> (InBatch(s.batches, i) <==> i !in s.unsent)
    ensures i in s.unsent ==> i < |s.accepted| - |s.cycles|
    ensures forall b, c :: 0 <= b < c < |s.batches| && InStretch(s.batches[b], i) ==> !InStretch(s.batches[c], i)
  {
    assert InBatch(s.batches, i) ==> exists b :: 0 <= b < |s.batches| && i < s.batches[b].1;
  }

  predicate InStretch(b: (int, int), i: nat) {
    b.0 <= i < b.1
  }
}
