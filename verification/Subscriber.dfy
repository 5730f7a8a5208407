/** The bounded frame queue of one WebSocket connection, as values. */
module Queues {
  import opened Prelude
  import opened LiveTypes

  /** A queued frame, labelled with how many frames were pushed before it in this subscription. */
  datatype Entry = Entry(num: nat, frame: Frame)

  /** `pushed`, `popped` and `dropped` record the current subscription; nothing the queue does depends on them. */
  datatype Queue = Queue(
    max: nat, tagId: Option<int>, lost: nat, overflowed: bool, generation: nat, frames: seq<Entry>, ready: bool,
    pushed: seq<Frame>, popped: seq<Entry>, dropped: seq<nat>)

  function Fresh(max: nat): Queue {
    Queue(max, None, 0, false, 0, [], false, [], [], [])
  }

  function DropErrors(es: seq<Entry>): (r: seq<Entry>)
    ensures |r| <= |es|
    ensures forall e :: e in r <==> e in es && !e.frame.Error?
  {
    if es == [] then []
    else
      var front, last := es[..|es| - 1], es[|es| - 1];
      assert es == front + [last];
      if last.frame.Error? then DropErrors(front) else DropErrors(front) + [last]
  }

  /** The position of the oldest append, or the length when there is none. */
  function FirstAppend(es: seq<Entry>): (i: nat)
    ensures i <= |es|
    ensures i < |es| ==> es[i].frame.Append?
    ensures forall k :: 0 <= k < i ==> !es[k].frame.Append?
  {
    if es == [] then 0
    else if es[0].frame.Append? then 0
    else
      var i := FirstAppend(es[1..]);
      assert forall k :: 0 < k < i + 1 ==> es[k] == es[1..][k - 1];
      i + 1
  }

  function Without(s: seq<Entry>, i: nat): (r: seq<Entry>)
    requires i < |s|
    ensures |r| == |s| - 1
    ensures forall k :: 0 <= k < |r| ==> r[k] == s[if k < i then k else k + 1]
    ensures forall e :: e in r ==> e in s
    ensures forall e :: e in s && e != s[i] ==> e in r
  {
    assert s == s[..i] + [s[i]] + s[i + 1..];
    s[..i] + s[i + 1..]
  }

  /** Drops the oldest append. */
  function DropAppend(q: Queue, i: nat): Queue
    requires i < |q.frames|
  {
    q.(frames := Without(q.frames, i), lost := q.lost + 1, dropped := q.dropped + [q.frames[i].num])
  }

  /** Drops oldest appends until the queue fits or holds none. */
  function Shrink(q: Queue): (r: Queue)
    decreases |q.frames|
  {
    var i := FirstAppend(q.frames);
    if |q.frames| <= q.max || i == |q.frames| then q else Shrink(DropAppend(q, i))
  }

  function Enqueue(q: Queue, frame: Frame): Queue {
    var kept := if frame.Error? then DropErrors(q.frames) else q.frames;
    q.(frames := kept + [Entry(|q.pushed|, frame)], pushed := q.pushed + [frame])
  }

  function Settle(q: Queue): Queue {
    if |q.frames| > 2 * q.max then q.(frames := [], overflowed := true, ready := true) else q.(ready := true)
  }

  function Push(q: Queue, frame: Frame): Queue {
    if q.overflowed then q else Settle(Shrink(Enqueue(q, frame)))
  }

  /** Switches the subscription: forgets what is queued and starts again from `first`. */
  function Cleared(q: Queue, tagId: Option<int>): Queue {
    q.(tagId := tagId, frames := [], lost := 0, generation := q.generation + 1, pushed := [], popped := [], dropped := [])
  }

  function Reset(q: Queue, tagId: Option<int>, first: Option<Frame>): Queue {
    if first.Some? then Push(Cleared(q, tagId), first.value) else Cleared(q, tagId)
  }

  /** `pop_nowait`: the oldest frame, or none and the wake-up flag cleared. */
  function Pop(q: Queue): (Queue, Option<Frame>) {
    if q.frames == [] then (q.(ready := false), None)
    else (q.(frames := q.frames[1..], popped := q.popped + [q.frames[0]]), Some(q.frames[0].frame))
  }

  // ---------------------------------------------------------------- what every history keeps

  ghost predicate Ordered(es: seq<Entry>) {
    forall i, j :: 0 <= i < j < |es| ==> es[i].num < es[j].num
  }

  ghost predicate Labelled(es: seq<Entry>, pushed: seq<Frame>) {
    forall e :: e in es ==> e.num < |pushed| && pushed[e.num] == e.frame
  }

  ghost predicate Superseded(pushed: seq<Frame>, num: nat) {
    && num < |pushed| && pushed[num].Error?
    && exists later :: num < later < |pushed| && pushed[later].Error?
  }

  /** The number of queued frames, errors and appends is bounded whatever was pushed. */
  ghost predicate Bounded(q: Queue) {
    && |q.frames| <= 2 * q.max
    && (|q.frames| > q.max ==> forall e :: e in q.frames ==> !e.frame.Append?)
    && (forall i, j :: 0 <= i < j < |q.frames| ==> !(q.frames[i].frame.Error? && q.frames[j].frame.Error?))
  }

  /** Everything handed out and everything queued, oldest first. */
  function Kept(q: Queue): seq<Entry> {
    q.popped + q.frames
  }

  /** Push number `n` was handed out or is still queued. */
  ghost predicate Holds(q: Queue, n: nat)
    requires n < |q.pushed|
  {
    Entry(n, q.pushed[n]) in Kept(q)
  }

  ghost predicate InOrder(q: Queue) {
    Ordered(Kept(q)) && Labelled(Kept(q), q.pushed)
  }

  /** `lost` counts the dropped appends: each dropped once, oldest first, none of them newer than a queued one. */
  ghost predicate DropsCounted(q: Queue) {
    && q.lost == |q.dropped|
    && (forall i, j :: 0 <= i < j < |q.dropped| ==> q.dropped[i] < q.dropped[j])
    && (forall d :: d in q.dropped ==> d < |q.pushed| && q.pushed[d].Append? && !Holds(q, d))
    && (forall d, e :: d in q.dropped && e in q.frames && e.frame.Append? ==> d < e.num)
  }

  /** A frame goes missing only as a dropped append or a superseded error. */
  ghost predicate NothingElseMissing(q: Queue) {
    forall n: nat :: n < |q.pushed| ==> Holds(q, n) || n in q.dropped || Superseded(q.pushed, n)
  }

  ghost predicate Accounted(q: Queue) {
    DropsCounted(q) && NothingElseMissing(q)
  }

  /** The sender may sleep only on an empty queue that has not overflowed. */
  ghost predicate NoLostWakeup(q: Queue) {
    !q.ready ==> q.frames == [] && !q.overflowed
  }

  ghost predicate Inv(q: Queue) {
    && Bounded(q)
    && NoLostWakeup(q)
    && InOrder(q)
    && (q.overflowed ==> q.frames == [])
    && (!q.overflowed ==> Accounted(q))
  }
}

/** The queue as the object each connection holds (live/hub.py, class Subscriber). */
module Subscribers {
  import opened Prelude
  import opened LiveTypes
  import opened Queues

  class Subscriber {
    const maxFrames: nat
    const hardLimit: nat
    // Tells the connections of one hub apart.
    ghost const conn: nat
    var tagId: Option<int>
    var lost: nat
    var overflowed: bool
    var generation: nat
    var frames: seq<Entry>
    var ready: bool
    // Labels for the history; the queue's decisions do not depend on them.
    var pushCount: nat
    ghost var pushed: seq<Frame>
    ghost var popped: seq<Entry>
    ghost var dropped: seq<nat>

    ghost predicate Valid()
      reads this
    {
      hardLimit == 2 * maxFrames && pushCount == |pushed|
    }

    ghost function State(): Queue
      reads this
    {
      Queue(maxFrames, tagId, lost, overflowed, generation, frames, ready, pushed, popped, dropped)
    }

    constructor (maxFrames: nat, ghost conn: nat)
      ensures Valid() && State() == Fresh(maxFrames) && this.conn == conn
    {
      this.conn := conn;
      this.maxFrames, hardLimit := maxFrames, maxFrames * 2;
      tagId, lost, overflowed, generation := None, 0, false, 0;
      frames, ready, pushCount := [], false, 0;
      pushed, popped, dropped := [], [], [];
    }

    method Push(frame: Frame)
      requires Valid()
      modifies this
      ensures Valid() && State() == Queues.Push(old(State()), frame)
    {
      if overflowed {
        return;
      }
      if frame.Error? {
        DropPendingErrors();
      }
      frames := frames + [Entry(pushCount, frame)];
      pushed := pushed + [frame];
      pushCount := pushCount + 1;
      MakeRoom();
      if |frames| > hardLimit {
        frames := [];
        overflowed := true;
      }
      ready := true;
    }

    /** The loop of `Push`: drops oldest appends while there are too many frames. */
    method MakeRoom()
      requires Valid()
      modifies this
      ensures Valid() && State() == Shrink(old(State()))
    {
      var more := true;
      while more && |frames| > maxFrames
        invariant Valid()
        invariant Shrink(State()) == Shrink(old(State()))
        invariant !more ==> Shrink(State()) == State()
        decreases |frames|, more
      {
        more := DropOldestAppend();
      }
    }

    method Reset(tagId: Option<int>, first: Option<Frame>)
      requires Valid()
      modifies this
      ensures Valid() && State() == Queues.Reset(old(State()), tagId, first)
    {
      hide Shrink, Enqueue, Settle;
      this.tagId := tagId;
      frames := [];
      lost := 0;
      generation := generation + 1;
      pushCount := 0;
      pushed, popped, dropped := [], [], [];
      if first.Some? {
        Push(first.value);
      }
    }

    method PopNowait() returns (frame: Option<Frame>)
      requires Valid()
      modifies this
      ensures Valid() && (State(), frame) == Pop(old(State()))
    {
      if frames == [] {
        ready := false;
        return None;
      }
      frame := Some(frames[0].frame);
      popped := popped + [frames[0]];
      frames := frames[1..];
    }

    method DropPendingErrors()
      modifies this`frames
      ensures frames == DropErrors(old(frames))
    {
      frames := DropErrors(frames);
    }

    method DropOldestAppend() returns (found: bool)
      modifies this`frames, this`lost, this`dropped
      ensures var i := FirstAppend(old(frames));
        && found == (i < |old(frames)|)
        && State() == if found then DropAppend(old(State()), i) else old(State())
      ensures found ==> |frames| < |old(frames)|
    {
      var index := 0;
      while index < |frames|
        invariant index <= |frames|
        invariant forall k :: 0 <= k < index ==> !frames[k].frame.Append?
      {
        if frames[index].frame.Append? {
          FirstAppendIs(frames, index);
          dropped := dropped + [frames[index].num];
          frames := Without(frames, index);
          lost := lost + 1;
          return true;
        }
        index := index + 1;
      }
      FirstAppendIs(frames, index);
      return false;
    }
  }

  lemma FirstAppendIs(es: seq<Entry>, i: nat)
    requires i <= |es| && (i < |es| ==> es[i].frame.Append?)
    requires forall k :: 0 <= k < i ==> !es[k].frame.Append?
    ensures FirstAppend(es) == i
  {}
}
