/** The sending and receiving tasks of one WebSocket (api/routes_live.py), interleaved at their awaits. */
module LiveSockets {
  import opened Prelude
  import opened LiveTypes
  import opened Queues
  import opened QueueHistory

  /** Where the sender stands: about to look, asleep in `next`, reading anchors, awaiting `send_text`, or done. */
  datatype Phase = Running | Parked | Reading(entry: Entry, generation: nat) | Sending | Closed

  /** A frame passed to `send_text`, the subscription then current, and the `lost` it carried. */
  datatype Delivery = Delivery(num: nat, frame: Frame, generation: nat, lost: Option<nat>)

  /** `past` records what each earlier subscription had pushed. */
  datatype Conn = Conn(q: Queue, phase: Phase, sent: seq<Delivery>, past: seq<seq<Frame>>)

  function Opened(max: nat): Conn {
    Conn(Fresh(max), Running, [], [])
  }

  predicate CarriesAnchors(f: Frame) {
    f.Snapshot? || f.SessionStart? || f.SessionInfo?
  }

  predicate CarriesLost(f: Frame) {
    f.Append? || f.SessionStart? || f.SessionEnd? || f.SessionInfo?
  }

  function Send(c: Conn, e: Entry): Conn {
    var lost := if CarriesLost(e.frame) then Some(c.q.lost) else None;
    c.(phase := Sending, sent := c.sent + [Delivery(e.num, e.frame, c.q.generation, lost)])
  }

  /** From `next` to the following await. */
  function Look(c: Conn): Conn
    requires c.phase.Running?
  {
    if c.q.overflowed then c.(phase := Closed)
    else if c.q.frames == [] then c.(q := Pop(c.q).0, phase := Parked)
    else
      var e := c.q.frames[0];
      var popped := c.(q := Pop(c.q).0);
      if CarriesAnchors(e.frame) then popped.(phase := Reading(e, c.q.generation)) else Send(popped, e)
  }

  /** The anchors are read; the frame goes out unless the subscription changed meanwhile. */
  function AnchorsRead(c: Conn): Conn
    requires c.phase.Reading?
  {
    if c.q.generation != c.phase.generation then c.(phase := Running) else Send(c, c.phase.entry)
  }

  /** What can happen next. The hub pushes, the receiver switches or reports an error, the sender moves on. */
  datatype Step = Arrives(frame: Frame) | Switches(tagId: Option<int>, first: Option<Frame>) | Advances

  function StepSender(c: Conn): Conn {
    match c.phase
    case Running => Look(c)
    case Parked => if c.q.ready then c.(phase := Running) else c
    case Reading(_, _) => AnchorsRead(c)
    case Sending => c.(phase := Running)
    case Closed => c
  }

  function Do(c: Conn, step: Step): Conn {
    match step
    case Arrives(frame) => c.(q := Push(c.q, frame))
    case Switches(tagId, first) => c.(q := Reset(c.q, tagId, first), past := c.past + [c.q.pushed])
    case Advances => StepSender(c)
  }

  function Interleaved(c: Conn, steps: seq<Step>): Conn {
    if steps == [] then c else Do(Interleaved(c, steps[..|steps| - 1]), steps[|steps| - 1])
  }

  // ---------------------------------------------------------------- invariants

  /** What subscription `g` has pushed so far. */
  function PushedIn(c: Conn, g: nat): seq<Frame>
    requires |c.past| == c.q.generation && g <= c.q.generation
  {
    if g == c.q.generation then c.q.pushed else c.past[g]
  }

  /** Each delivered frame was pushed in the very subscription that was current when it was sent. */
  ghost predicate Current(c: Conn) {
    && |c.past| == c.q.generation
    && forall d :: d in c.sent ==>
      && d.generation <= c.q.generation
      && d.num < |PushedIn(c, d.generation)|
      && PushedIn(c, d.generation)[d.num] == d.frame
  }

  predicate Before(a: Delivery, b: Delivery) {
    a.generation < b.generation || (a.generation == b.generation && a.num < b.num)
  }

  /** Deliveries keep push order within a subscription, and none repeats. */
  ghost predicate NoRepeats(c: Conn) {
    forall i, j :: 0 <= i < j < |c.sent| ==> Before(c.sent[i], c.sent[j])
  }

  /** What was sent in this subscription had been popped from it; the frame being held is the last one popped. */
  ghost predicate FromQueue(c: Conn) {
    && (forall d :: d in c.sent && d.generation == c.q.generation ==> Entry(d.num, d.frame) in c.q.popped)
    && (c.phase.Reading? ==>
          && c.phase.generation <= c.q.generation
          && (c.phase.generation == c.q.generation ==>
                && c.phase.entry in c.q.popped
                && forall d :: d in c.sent && d.generation == c.q.generation ==> d.num < c.phase.entry.num))
  }

  ghost predicate Delivered(c: Conn, e: Entry) {
    exists d :: d in c.sent && d.num == e.num && d.frame == e.frame && d.generation == c.q.generation
  }

  /** Whatever was popped in the current subscription has been sent, but for the frame still waiting for anchors. */
  ghost predicate NothingWithheld(c: Conn) {
    forall e :: e in c.q.popped ==>
      Delivered(c, e) || (c.phase.Reading? && c.phase == Reading(e, c.q.generation))
  }

  ghost predicate ConnInv(c: Conn) {
    && Inv(c.q) && Current(c) && NoRepeats(c) && FromQueue(c) && NothingWithheld(c)
    && (c.phase.Closed? ==> c.q.overflowed)
  }

  lemma {:induction false} EveryInterleaving(max: nat, steps: seq<Step>)
    ensures ConnInv(Interleaved(Opened(max), steps))
  {
    hide ConnInv, Do;
    if steps == [] {
      OpenedInv(max);
    } else {
      EveryInterleaving(max, steps[..|steps| - 1]);
      DoInv(Interleaved(Opened(max), steps[..|steps| - 1]), steps[|steps| - 1]);
    }
  }

  lemma OpenedInv(max: nat)
    ensures ConnInv(Opened(max))
  {}

  lemma DoInv(c: Conn, step: Step)
    requires ConnInv(c)
    ensures ConnInv(Do(c, step))
  {
    match step
    case Arrives(frame) => ArrivesInv(c, frame);
    case Switches(tagId, first) => SwitchesInv(c, tagId, first);
    case Advances => SenderInv(c);
  }

  lemma ArrivesInv(c: Conn, frame: Frame)
    requires ConnInv(c)
    ensures ConnInv(c.(q := Push(c.q, frame)))
  {
    PushInv(c.q, frame);
    PushKeepsHistory(c.q, frame);
  }

  lemma PushKeepsHistory(q: Queue, frame: Frame)
    ensures var r := Push(q, frame);
      && r.generation == q.generation && r.popped == q.popped && q.pushed <= r.pushed
      && (q.overflowed ==> r.overflowed)
  {
    ShrinkKeepsHistory(Enqueue(q, frame));
  }

  lemma SwitchesInv(c: Conn, tagId: Option<int>, first: Option<Frame>)
    requires ConnInv(c)
    ensures ConnInv(Do(c, Switches(tagId, first)))
  {
    hide Inv;
    var cleared := Cleared(c.q, tagId);
    ResetInv(c.q, tagId, first);
    if first.Some? {
      PushKeepsHistory(cleared, first.value);
    }
  }

  /** Sending the entry last popped keeps order: everything sent before it in this subscription is older. */
  lemma SendInv(c: Conn, e: Entry)
    requires Inv(c.q) && Current(c) && NoRepeats(c) && FromQueue(c) && e in c.q.popped
    requires forall d :: d in c.sent && d.generation == c.q.generation ==> d.num < e.num
    requires forall other :: other in c.q.popped && other != e ==> Delivered(c, other)
    ensures ConnInv(Send(c, e))
  {
    hide Bounded, NoLostWakeup, Accounted;
    assert e in Kept(c.q);
    var r := Send(c, e);
    var d := r.sent[|c.sent|];
    assert forall x :: x in r.sent <==> x in c.sent || x == d;
    forall other | other in r.q.popped ensures Delivered(r, other) {
      if other == e {
        assert d in r.sent;
      } else {
        var x :| x in c.sent && x.num == other.num && x.frame == other.frame && x.generation == c.q.generation;
        assert x in r.sent;
      }
    }
  }

  lemma TakeInv(c: Conn)
    requires ConnInv(c) && c.phase.Running? && !c.q.overflowed && c.q.frames != []
    ensures var r := c.(q := Pop(c.q).0);
      && Inv(r.q) && Current(r) && NoRepeats(r) && FromQueue(r)
      && c.q.frames[0] in r.q.popped
      && (forall d :: d in r.sent && d.generation == r.q.generation ==> d.num < c.q.frames[0].num)
      && (forall other :: other in r.q.popped && other != c.q.frames[0] ==> Delivered(r, other))
  {
    hide Bounded, NoLostWakeup, Accounted, Ordered;
    var e := c.q.frames[0];
    PopInv(c.q);
    OrderedParts(c.q.popped, c.q.frames);
    assert e in c.q.frames;
    forall other | other in Pop(c.q).0.popped && other != e ensures Delivered(c.(q := Pop(c.q).0), other) {
      assert Delivered(c, other);
    }
  }

  lemma LookInv(c: Conn)
    requires ConnInv(c) && c.phase.Running?
    ensures ConnInv(Look(c))
  {
    if !c.q.overflowed {
      hide Inv;
      PopInv(c.q);
      if c.q.frames != [] {
        var e := c.q.frames[0];
        TakeInv(c);
        var r := c.(q := Pop(c.q).0);
        if CarriesAnchors(e.frame) {
          var reading := r.(phase := Reading(e, c.q.generation));
          forall other | other in reading.q.popped && other != e ensures Delivered(reading, other) {
            assert Delivered(r, other);
          }
        } else {
          SendInv(r, e);
        }
      }
    }
  }

  lemma SenderInv(c: Conn)
    requires ConnInv(c)
    ensures ConnInv(StepSender(c))
  {
    hide Inv;
    match c.phase
    case Running => LookInv(c);
    case Reading(entry, generation) =>
      if c.q.generation == generation {
        SendInv(c, entry);
      }
    case _ =>
  }

  /** The sender is asleep with no wake-up due only while nothing is queued and the queue has not overflowed. */
  lemma SleepsOnlyWhenIdle(max: nat, steps: seq<Step>)
    ensures var c := Interleaved(Opened(max), steps);
      c.phase.Parked? && StepSender(c) == c ==> c.q.frames == [] && !c.q.overflowed
  {
    EveryInterleaving(max, steps);
  }

  /** Under every interleaving, what goes out belongs to the subscription current at that moment, in order, once. */
  lemma SentFramesAreCurrent(max: nat, steps: seq<Step>)
    ensures var c := Interleaved(Opened(max), steps);
      && |c.past| == c.q.generation
      && (forall d :: d in c.sent ==>
            (d.generation <= c.q.generation
             && d.num < |PushedIn(c, d.generation)| && PushedIn(c, d.generation)[d.num] == d.frame))
      && (forall i, j :: 0 <= i < j < |c.sent| ==> Before(c.sent[i], c.sent[j]))
  {
    EveryInterleaving(max, steps);
  }

  // ---------------------------------------------------------------- which frames wait for anchors

  lemma {:induction false} HeldCarriesAnchors(max: nat, steps: seq<Step>)
    ensures var c := Interleaved(Opened(max), steps); c.phase.Reading? ==> CarriesAnchors(c.phase.entry.frame)
  {
    if steps != [] {
      HeldCarriesAnchors(max, steps[..|steps| - 1]);
      StepReads(Interleaved(Opened(max), steps[..|steps| - 1]), steps[|steps| - 1]);
    }
    hide Do;
  }

  /** Under every interleaving, the frames that go out after anchors were read are the snapshots, starts and infos. */
  lemma AnchorsAreRead(max: nat, steps: seq<Step>)
    requires steps != []
    ensures var c, r := Interleaved(Opened(max), steps[..|steps| - 1]), Interleaved(Opened(max), steps);
      r.sent != c.sent ==>
        && |r.sent| == |c.sent| + 1
        && var f := r.sent[|c.sent|].frame;
           c.phase.Reading? <==> f.Snapshot? || f.SessionStart? || f.SessionInfo?
  {
    HeldCarriesAnchors(max, steps[..|steps| - 1]);
    StepReads(Interleaved(Opened(max), steps[..|steps| - 1]), steps[|steps| - 1]);
    hide Do;
  }

  lemma StepReads(c: Conn, step: Step)
    requires c.phase.Reading? ==> CarriesAnchors(c.phase.entry.frame)
    ensures var r := Do(c, step);
      && (r.phase.Reading? ==> CarriesAnchors(r.phase.entry.frame))
      && (r.sent != c.sent ==>
            |r.sent| == |c.sent| + 1 && (c.phase.Reading? <==> CarriesAnchors(r.sent[|c.sent|].frame)))
  {
    hide Push, Reset;
  }

  // ---------------------------------------------------------------- what `lost` says

  /** The appends of the current subscription that are neither queued nor sent. */
  ghost function GoneAppends(c: Conn): set<nat> {
    set n: nat | n < |c.q.pushed| && c.q.pushed[n].Append? && !SentInThis(c, n) && !Queued(c, n)
  }

  ghost predicate SentInThis(c: Conn, n: nat) {
    exists d :: d in c.sent && d.generation == c.q.generation && d.num == n
  }

  ghost predicate Queued(c: Conn, n: nat) {
    exists e :: e in c.q.frames && e.num == n
  }

  ghost function Members(s: seq<nat>): set<nat> {
    set n | n in s
  }

  lemma MembersSnoc(front: seq<nat>, last: nat)
    ensures Members(front + [last]) == Members(front) + {last} && (last in Members(front) <==> last in front)
  {}

  lemma {:induction false} IncreasingCount(s: seq<nat>)
    requires forall i, j :: 0 <= i < j < |s| ==> s[i] < s[j]
    ensures |Members(s)| == |s|
  {
    hide Members;
    if s == [] {
      NoMembers();
    } else {
      var front, last := s[..|s| - 1], s[|s| - 1];
      IncreasingCount(front);
      MembersSnoc(front, last);
      assert s == front + [last];
      assert last !in front;
    }
  }

  lemma NoMembers()
    ensures Members([]) == {}
  {}

  /** Once a frame is out, every frame taken from the queue is. */
  lemma GoneAreDropped(c: Conn)
    requires ConnInv(c) && c.phase.Sending? && !c.q.overflowed
    ensures GoneAppends(c) == Members(c.q.dropped)
  {
    hide Bounded, Current, NoRepeats;
    forall n: nat | n < |c.q.pushed| && c.q.pushed[n].Append?
      ensures n in c.q.dropped <==> !SentInThis(c, n) && !Queued(c, n)
    {
      HeldIsSentOrQueued(c, n);
      assert Holds(c.q, n) || n in c.q.dropped;
    }
  }

  lemma HeldIsSentOrQueued(c: Conn, n: nat)
    requires ConnInv(c) && c.phase.Sending? && n < |c.q.pushed|
    ensures Holds(c.q, n) <==> SentInThis(c, n) || Queued(c, n)
  {
    hide Bounded, Accounted, Current, NoRepeats, Ordered;
    var e := Entry(n, c.q.pushed[n]);
    if e in c.q.popped {
      assert Delivered(c, e);
    }
    if SentInThis(c, n) {
      var d :| d in c.sent && d.generation == c.q.generation && d.num == n;
      assert Entry(d.num, d.frame) in Kept(c.q);
    }
    if Queued(c, n) {
      var f :| f in c.q.frames && f.num == n;
      assert f in Kept(c.q);
    }
  }

  /**
   * Under every interleaving, a message that says how many appends were lost says how many of its subscription will
   * never go out: neither sent, nor queued. Snapshots and errors say nothing of it.
   */
  lemma LostIsWhatIsGone(max: nat, steps: seq<Step>)
    requires steps != []
    ensures var c, r := Interleaved(Opened(max), steps[..|steps| - 1]), Interleaved(Opened(max), steps);
      r.sent != c.sent ==>
        && |r.sent| == |c.sent| + 1 && r.sent[..|c.sent|] == c.sent
        && var d := r.sent[|c.sent|];
           if d.frame.Snapshot? || d.frame.Error? then d.lost.None?
           else d.lost.Some? && (!r.q.overflowed ==> d.lost.value == |GoneAppends(r)|)
  {
    EveryInterleaving(max, steps[..|steps| - 1]);
    EveryInterleaving(max, steps);
    var c, r := Interleaved(Opened(max), steps[..|steps| - 1]), Interleaved(Opened(max), steps);
    StepSends(c, steps[|steps| - 1]);
    if r.sent != c.sent && !r.q.overflowed {
      GoneAreDropped(r);
      IncreasingCount(r.q.dropped);
    }
  }

  /** One step sends at most one frame, with the count the queue then has. */
  lemma StepSends(c: Conn, step: Step)
    ensures var r := Do(c, step);
      r.sent != c.sent ==>
        && r.phase.Sending? && |r.sent| == |c.sent| + 1 && r.sent[..|c.sent|] == c.sent
        && var d := r.sent[|c.sent|];
           d.lost == if d.frame.Snapshot? || d.frame.Error? then None else Some(r.q.lost)
  {}
}

/** The two tasks as methods, one per stretch between awaits. */
module LiveConnections {
  import opened Prelude
  import opened LiveTypes
  import opened Queues
  import opened Subscribers
  import opened LiveSockets

  /** A message of the client once parsed; `Malformed` stands for what validation refuses. */
  datatype ClientOp = Subscribe(tagId: int, historyMs: int) | Unsubscribe | Malformed(detail: string)

  class Connection {
    const subscriber: Subscriber
    var phase: Phase
    var sent: seq<Delivery>
    ghost var past: seq<seq<Frame>>

    ghost predicate Valid()
      reads this, subscriber
    {
      subscriber.Valid()
    }

    ghost function State(): Conn
      reads this, subscriber
    {
      Conn(subscriber.State(), phase, sent, past)
    }

    constructor (maxFrames: nat)
      ensures Valid() && State() == Opened(maxFrames) && fresh(subscriber)
    {
      subscriber := new Subscriber(maxFrames, 0);
      phase, sent, past := Running, [], [];
    }

    /** One message in `_receive_ops`; `snapshot` is what the hub has for the tag asked for. */
    method Receive(op: ClientOp, snapshot: Frame)
      requires Valid()
      modifies this, subscriber
      ensures Valid()
      ensures State() == Do(old(State()),
        match op
        case Subscribe(tagId, _) => Switches(Some(tagId), Some(snapshot))
        case Unsubscribe => Switches(None, None)
        case Malformed(detail) => Arrives(Error(detail)))
    {
      match op
      case Malformed(detail) =>
        subscriber.Push(Error(detail));
      case Subscribe(tagId, _) =>
        past := past + [subscriber.pushed];
        subscriber.Reset(Some(tagId), Some(snapshot));
      case Unsubscribe =>
        past := past + [subscriber.pushed];
        subscriber.Reset(None, None);
    }

    /** One stretch of `_send_frames`, up to its next await. */
    method Advance()
      requires Valid()
      modifies this, subscriber
      ensures Valid() && State() == StepSender(old(State()))
    {
      match phase
      case Running =>
        if subscriber.overflowed {
          phase := Closed;
          return;
        }
        var num := if subscriber.frames == [] then 0 else subscriber.frames[0].num;
        var frame := subscriber.PopNowait();
        if frame.None? {
          phase := Parked;
        } else if CarriesAnchors(frame.value) {
          phase := Reading(Entry(num, frame.value), subscriber.generation);
        } else {
          SendText(Entry(num, frame.value));
        }
      case Parked =>
        if subscriber.ready {
          phase := Running;
        }
      case Reading(entry, generation) =>
        if subscriber.generation != generation {
          phase := Running;
        } else {
          SendText(entry);
        }
      case Sending =>
        phase := Running;
      case Closed =>
    }

    method SendText(e: Entry)
      modifies this`phase, this`sent
      ensures State() == Send(old(State()), e)
    {
      var lost := if CarriesLost(e.frame) then Some(subscriber.lost) else None;
      sent := sent + [Delivery(e.num, e.frame, subscriber.generation, lost)];
      phase := Sending;
    }
  }
}
