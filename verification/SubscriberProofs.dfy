/** Every history of pushes, pops and resets keeps the queue bounded, ordered and accounted for. */
module QueueHistory {
  import opened Prelude
  import opened LiveTypes
  import opened Queues

  ghost predicate OneError(es: seq<Entry>) {
    forall i, j :: 0 <= i < j < |es| ==> !(es[i].frame.Error? && es[j].frame.Error?)
  }

  lemma {:induction false} DropErrorsOrdered(es: seq<Entry>)
    requires Ordered(es)
    ensures Ordered(DropErrors(es))
  {
    if es != [] {
      var front := es[..|es| - 1];
      DropErrorsOrdered(front);
      forall e | e in DropErrors(front) ensures e.num < es[|es| - 1].num {
        var k :| 0 <= k < |front| && front[k] == e;
        assert es[k] == e;
      }
    }
  }

  lemma OrderedConcat(a: seq<Entry>, b: seq<Entry>)
    requires Ordered(a) && Ordered(b)
    requires forall x, y :: x in a && y in b ==> x.num < y.num
    ensures Ordered(a + b)
  {
    forall i, j | 0 <= i < j < |a + b| ensures (a + b)[i].num < (a + b)[j].num {
      if i < |a| <= j {
        assert a[i] in a && b[j - |a|] in b;
      }
    }
  }

  lemma OrderedParts(a: seq<Entry>, b: seq<Entry>)
    requires Ordered(a + b)
    ensures Ordered(a) && Ordered(b)
    ensures forall x, y :: x in a && y in b ==> x.num < y.num
  {
    assert forall k :: 0 <= k < |a| ==> a[k] == (a + b)[k];
    assert forall k :: 0 <= k < |b| ==> b[k] == (a + b)[|a| + k];
  }

  lemma EnqueueInOrder(q: Queue, frame: Frame)
    requires InOrder(q)
    ensures InOrder(Enqueue(q, frame))
  {
    var kept := if frame.Error? then DropErrors(q.frames) else q.frames;
    var added := [Entry(|q.pushed|, frame)];
    OrderedParts(q.popped, q.frames);
    DropErrorsOrdered(q.frames);
    assert forall e :: e in q.popped || e in q.frames ==> e in Kept(q);
    hide Ordered, DropErrors;
    OneOrdered(added);
    OrderedConcat(kept, added);
    OrderedConcat(q.popped, kept + added);
    assert q.popped + (kept + added) == Kept(Enqueue(q, frame));
    EnqueueLabelled(q, frame);
  }

  lemma EnqueueLabelled(q: Queue, frame: Frame)
    requires Labelled(Kept(q), q.pushed)
    ensures Labelled(Kept(Enqueue(q, frame)), Enqueue(q, frame).pushed)
  {
    hide DropErrors;
    var r := Enqueue(q, frame);
    forall e | e in Kept(r) ensures e.num < |r.pushed| && r.pushed[e.num] == e.frame {
      if e in q.popped || e in q.frames {
        assert e in Kept(q);
      }
    }
  }

  lemma OneOrdered(es: seq<Entry>)
    requires |es| <= 1
    ensures Ordered(es)
  {}

  lemma EnqueueAccounted(q: Queue, frame: Frame)
    requires InOrder(q) && Accounted(q)
    ensures InOrder(Enqueue(q, frame)) && Accounted(Enqueue(q, frame))
  {
    var r := Enqueue(q, frame);
    var n := |q.pushed|;
    EnqueueInOrder(q, frame);
    assert forall e :: e in Kept(q) ==> e in Kept(r) || (e.frame.Error? && frame.Error?);
    assert forall e :: e in Kept(r) ==> e in Kept(q) || e == Entry(n, frame);
    forall d | d in r.dropped ensures !Holds(r, d) {
      assert !Holds(q, d);
    }
    forall i: nat | i < |r.pushed| ensures Holds(r, i) || i in r.dropped || Superseded(r.pushed, i) {
      if i < n {
        assert r.pushed[n] == frame;
        if Superseded(q.pushed, i) {
          var later :| i < later < n && q.pushed[later].Error?;
          assert r.pushed[later].Error?;
        }
      }
    }
  }

  lemma EnqueueOneError(q: Queue, frame: Frame)
    requires OneError(q.frames)
    ensures OneError(Enqueue(q, frame).frames)
    ensures Enqueue(q, frame).overflowed == q.overflowed && Enqueue(q, frame).max == q.max
  {}

  lemma DropAppendInOrder(q: Queue, i: nat)
    requires InOrder(q) && i < |q.frames|
    ensures InOrder(DropAppend(q, i)) && q.frames[i] !in Kept(DropAppend(q, i))
  {
    var r := DropAppend(q, i);
    OrderedParts(q.popped, q.frames);
    assert Ordered(r.frames);
    OrderedConcat(q.popped, r.frames);
  }

  lemma DropAppendKept(q: Queue, i: nat)
    requires InOrder(q) && i < |q.frames|
    ensures forall e :: e in Kept(DropAppend(q, i)) <==> e in Kept(q) && e != q.frames[i]
  {
    DropAppendInOrder(q, i);
  }

  lemma OldestAppend(es: seq<Entry>, i: nat)
    requires Ordered(es) && i == FirstAppend(es) < |es|
    ensures forall e :: e in Without(es, i) && e.frame.Append? ==> es[i].num < e.num
  {
    hide FirstAppend, Without;
    forall e | e in Without(es, i) && e.frame.Append? ensures es[i].num < e.num {
      var k :| 0 <= k < |es| - 1 && Without(es, i)[k] == e;
      assert k >= i && e == es[k + 1];
    }
  }

  lemma DropAppendCounted(q: Queue, i: nat)
    requires InOrder(q) && Accounted(q) && i == FirstAppend(q.frames) < |q.frames|
    ensures DropsCounted(DropAppend(q, i))
  {
    hide Kept, Without, FirstAppend, NothingElseMissing;
    var r := DropAppend(q, i);
    var gone := q.frames[i];
    DropAppendKept(q, i);
    assert gone in Kept(q) && Ordered(q.frames) by {
      QueuedIsKept(q);
    }
    OldestAppend(q.frames, i);
    assert gone in q.frames && gone.frame.Append?;
    forall j, k | 0 <= j < k < |r.dropped| ensures r.dropped[j] < r.dropped[k] {
      assert q.dropped[j] in q.dropped;
    }
    forall d | d in r.dropped ensures d < |r.pushed| && r.pushed[d].Append? && !Holds(r, d) {
      assert d in q.dropped ==> !Holds(q, d);
    }
    forall d, e | d in r.dropped && e in r.frames && e.frame.Append? ensures d < e.num {
      assert d == gone.num || d in q.dropped;
      assert e in q.frames;
    }
  }

  lemma QueuedIsKept(q: Queue)
    requires InOrder(q)
    ensures Ordered(q.frames)
    ensures forall e :: e in q.frames ==> e in Kept(q)
  {
    OrderedParts(q.popped, q.frames);
  }

  lemma DropAppendAccounted(q: Queue, i: nat)
    requires InOrder(q) && Accounted(q) && i == FirstAppend(q.frames) < |q.frames|
    ensures InOrder(DropAppend(q, i)) && Accounted(DropAppend(q, i))
  {
    hide DropsCounted;
    var r := DropAppend(q, i);
    var gone := q.frames[i];
    DropAppendInOrder(q, i);
    DropAppendCounted(q, i);
    DropAppendKept(q, i);
    assert gone in Kept(q) && gone == Entry(gone.num, q.pushed[gone.num]);
    forall n: nat | n < |r.pushed| ensures Holds(r, n) || n in r.dropped || Superseded(r.pushed, n) {
      assert Holds(q, n) || n in q.dropped || Superseded(q.pushed, n);
      assert r.dropped[|q.dropped|] == gone.num;
    }
  }

  lemma {:induction false} ShrinkKeeps(q: Queue)
    requires InOrder(q) && Accounted(q) && OneError(q.frames)
    ensures InOrder(Shrink(q)) && Accounted(Shrink(q)) && OneError(Shrink(q).frames)
    ensures |Shrink(q).frames| > q.max ==> forall e :: e in Shrink(q).frames ==> !e.frame.Append?
    ensures Shrink(q).(frames := q.frames, lost := q.lost, dropped := q.dropped) == q
    decreases |q.frames|
  {
    var i := FirstAppend(q.frames);
    if |q.frames| > q.max && i < |q.frames| {
      DropAppendAccounted(q, i);
      ShrinkKeeps(DropAppend(q, i));
    }
  }

  /** Making room changes the queued frames and the count of lost ones, nothing else. */
  lemma {:induction false} ShrinkKeepsHistory(q: Queue)
    ensures Shrink(q).(frames := q.frames, lost := q.lost, dropped := q.dropped) == q
    decreases |q.frames|
  {
    var i := FirstAppend(q.frames);
    if |q.frames| > q.max && i < |q.frames| {
      ShrinkKeepsHistory(DropAppend(q, i));
    }
  }

  lemma FreshInv(max: nat)
    ensures Inv(Fresh(max))
  {}

  lemma SettleInv(q: Queue)
    requires !q.overflowed && InOrder(q) && Accounted(q) && OneError(q.frames)
    requires |q.frames| > q.max ==> forall e :: e in q.frames ==> !e.frame.Append?
    ensures Inv(Settle(q))
  {
    hide Accounted;
    var r := Settle(q);
    if r.overflowed {
      assert Kept(r) == q.popped;
      OrderedParts(q.popped, q.frames);
      assert forall e :: e in q.popped ==> e in Kept(q);
    } else {
      assert Accounted(r) by {
        AccountedIgnoresFlags(q, r);
      }
      assert Kept(r) == Kept(q);
    }
  }

  lemma AccountedIgnoresFlags(q: Queue, r: Queue)
    requires Accounted(q) && r == q.(ready := r.ready)
    ensures Accounted(r)
  {
    assert forall n: nat :: n < |q.pushed| ==> (Holds(q, n) <==> Holds(r, n));
  }

  lemma PushInv(q: Queue, frame: Frame)
    requires Inv(q)
    ensures Inv(Push(q, frame))
  {
    hide Accounted, InOrder, Shrink, Settle, Enqueue;
    if !q.overflowed {
      EnqueueAccounted(q, frame);
      EnqueueOneError(q, frame);
      ShrinkKeeps(Enqueue(q, frame));
      SettleInv(Shrink(Enqueue(q, frame)));
    }
  }

  lemma ResetInv(q: Queue, tagId: Option<int>, first: Option<Frame>)
    requires Inv(q)
    ensures Inv(Reset(q, tagId, first))
  {
    var cleared := Cleared(q, tagId);
    assert Inv(cleared);
    if first.Some? {
      PushInv(cleared, first.value);
    }
  }

  lemma PopInv(q: Queue)
    requires Inv(q) && !q.overflowed
    ensures Inv(Pop(q).0)
  {
    if q.frames != [] {
      var r := Pop(q).0;
      assert Kept(r) == Kept(q);
      assert forall e :: e in r.frames ==> e in q.frames;
      assert forall n: nat :: n < |q.pushed| ==> (Holds(q, n) <==> Holds(r, n));
    }
  }

  lemma ApplyInv(q: Queue, op: Op)
    requires Inv(q)
    ensures Inv(Apply(q, op))
  {
    match op
    case Pushed(frame) => PushInv(q, frame);
    case Popped => if !q.overflowed { PopInv(q); }
    case Switched(tagId, first) => ResetInv(q, tagId, first);
  }

  /** How many queued frames may not be dropped for room; errors do not count when a new error replaces them. */
  function Undroppable(es: seq<Entry>, newError: bool): nat {
    if es == [] then 0
    else
      var f := es[|es| - 1].frame;
      Undroppable(es[..|es| - 1], newError) + if f.Append? || (newError && f.Error?) then 0 else 1
  }

  /** How many frames are queued, errors aside when a new error replaces them. */
  function Staying(es: seq<Entry>, newError: bool): nat {
    if es == [] then 0
    else Staying(es[..|es| - 1], newError) + if newError && es[|es| - 1].frame.Error? then 0 else 1
  }

  lemma {:induction false} CountsSnoc(es: seq<Entry>, e: Entry)
    ensures Undroppable(es + [e], false) == Undroppable(es, false) + if e.frame.Append? then 0 else 1
    ensures Undroppable(es, false) <= |es| && Staying(es, false) == |es|
  {
    assert (es + [e])[..|es|] == es;
    if es != [] {
      CountsSnoc(es[..|es| - 1], es[|es| - 1]);
      assert es == es[..|es| - 1] + [es[|es| - 1]];
    }
  }

  lemma {:induction false} CountsWithoutErrors(es: seq<Entry>)
    ensures Undroppable(DropErrors(es), false) == Undroppable(es, true) && |DropErrors(es)| == Staying(es, true)
  {
    if es != [] {
      CountsWithoutErrors(es[..|es| - 1]);
      CountsSnoc(DropErrors(es[..|es| - 1]), es[|es| - 1]);
    }
  }

  lemma {:induction false} CountsConcat(a: seq<Entry>, b: seq<Entry>)
    ensures Undroppable(a + b, false) == Undroppable(a, false) + Undroppable(b, false)
  {
    if b == [] {
      assert a + b == a;
    } else {
      var front, last := b[..|b| - 1], b[|b| - 1];
      assert a + b == (a + front) + [last] && b == front + [last];
      CountsConcat(a, front);
      CountsSnoc(a + front, last);
      CountsSnoc(front, last);
    }
  }

  lemma CountsWithout(es: seq<Entry>, i: nat)
    requires i < |es| && es[i].frame.Append?
    ensures Undroppable(Without(es, i), false) == Undroppable(es, false)
  {
    assert es == (es[..i] + [es[i]]) + es[i + 1..];
    CountsConcat(es[..i] + [es[i]], es[i + 1..]);
    CountsConcat(es[..i], es[i + 1..]);
    CountsSnoc(es[..i], es[i]);
  }

  lemma {:induction false} AllUndroppable(es: seq<Entry>)
    requires forall k :: 0 <= k < |es| ==> !es[k].frame.Append?
    ensures Undroppable(es, false) == |es|
  {
    if es != [] {
      AllUndroppable(es[..|es| - 1]);
    }
  }

  /** Shrinking drops appends down to the limit, or all of them when that is not enough. */
  lemma {:induction false} ShrinkExactly(q: Queue)
    ensures var r := Shrink(q);
      && |r.frames| == (if |q.frames| <= q.max then |q.frames| else if Undroppable(q.frames, false) > q.max
                        then Undroppable(q.frames, false) else q.max)
      && r.lost == q.lost + |q.frames| - |r.frames| && r.max == q.max
    decreases |q.frames|
  {
    hide Undroppable;
    var i := FirstAppend(q.frames);
    if i == |q.frames| {
      AllUndroppable(q.frames);
    } else if |q.frames| > q.max {
      CountsWithout(q.frames, i);
      ShrinkExactly(DropAppend(q, i));
      CountsSnoc(Without(q.frames, i), q.frames[i]);
    }
  }

  /**
    The queue is given up exactly when the frames that may not be dropped, the new one included, exceed twice the
    limit. Otherwise just as many appends are dropped as the limit asks for, or all of them when that is not enough.
   */
  lemma PushDropsOnlyToMakeRoom(q: Queue, frame: Frame)
    requires !q.overflowed
    ensures var r := Push(q, frame);
      var kept := Undroppable(q.frames, frame.Error?) + if frame.Append? then 0 else 1;
      var all := Staying(q.frames, frame.Error?) + 1;
      && (r.overflowed <==> kept > 2 * q.max)
      && (!r.overflowed ==>
            && r.lost == q.lost + all - |r.frames|
            && |r.frames| == if all <= q.max then all else if kept > q.max then kept else q.max)
  {
    hide Undroppable, Staying, Shrink;
    var e := Entry(|q.pushed|, frame);
    CountsWithoutErrors(q.frames);
    CountsSnoc(DropErrors(q.frames), e);
    CountsSnoc(q.frames, e);
    ShrinkExactly(Enqueue(q, frame));
    ShrinkKeepsFlag(Enqueue(q, frame));
  }

  lemma {:induction false} ShrinkKeepsFlag(q: Queue)
    ensures Shrink(q).overflowed == q.overflowed
    decreases |q.frames|
  {
    var i := FirstAppend(q.frames);
    if |q.frames| > q.max && i < |q.frames| {
      ShrinkKeepsFlag(DropAppend(q, i));
    }
  }

  // ---------------------------------------------------------------- whole histories

  datatype Op = Pushed(frame: Frame) | Popped | Switched(tagId: Option<int>, first: Option<Frame>)

  /** `next` pops only a queue that has not overflowed; otherwise it raises and nothing changes. */
  function Apply(q: Queue, op: Op): Queue {
    match op
    case Pushed(frame) => Push(q, frame)
    case Popped => if q.overflowed then q else Pop(q).0
    case Switched(tagId, first) => Reset(q, tagId, first)
  }

  function After(q: Queue, ops: seq<Op>): Queue {
    if ops == [] then q else Apply(After(q, ops[..|ops| - 1]), ops[|ops| - 1])
  }

  /** Bounds, order and accounting hold after every history of a new connection. */
  lemma {:induction false} EveryHistory(max: nat, ops: seq<Op>)
    ensures Inv(After(Fresh(max), ops))
  {
    hide Inv, Apply;
    if ops == [] {
      FreshInv(max);
    } else {
      EveryHistory(max, ops[..|ops| - 1]);
      ApplyInv(After(Fresh(max), ops[..|ops| - 1]), ops[|ops| - 1]);
    }
  }

  // ---------------------------------------------------------------- a subscriber that lost nothing

  function FramesOf(es: seq<Entry>): seq<Frame> {
    if es == [] then [] else FramesOf(es[..|es| - 1]) + [es[|es| - 1].frame]
  }

  function NonErrors(fs: seq<Frame>): seq<Frame> {
    if fs == [] then []
    else NonErrors(fs[..|fs| - 1]) + (if fs[|fs| - 1].Error? then [] else [fs[|fs| - 1]])
  }

  /** With `lost` at zero, what was handed out followed by what is queued is what was pushed, errors aside. */
  lemma NothingLost(q: Queue)
    requires Inv(q) && !q.overflowed && q.lost == 0
    ensures NonErrors(FramesOf(Kept(q))) == NonErrors(q.pushed)
  {
    SameNonErrors(Kept(q), q.pushed, |q.pushed|);
    assert q.pushed[..|q.pushed|] == q.pushed;
  }

  lemma NothingInNothing()
    ensures NonErrors(FramesOf([])) == NonErrors([])
  {}

  lemma NonErrorsSnoc(fs: seq<Frame>, f: Frame)
    ensures NonErrors(fs + [f]) == NonErrors(fs) + (if f.Error? then [] else [f])
  {
    assert (fs + [f])[..|fs|] == fs;
  }

  lemma FramesOfSnoc(es: seq<Entry>, e: Entry)
    ensures FramesOf(es + [e]) == FramesOf(es) + [e.frame]
  {
    assert (es + [e])[..|es|] == es;
  }

  /** By induction on the pushes: an ordered, labelled selection that misses only errors. */
  lemma {:induction false} SameNonErrors(es: seq<Entry>, pushed: seq<Frame>, upTo: nat)
    requires upTo <= |pushed| && Ordered(es) && Labelled(es, pushed)
    requires forall e :: e in es ==> e.num < upTo
    requires forall n: nat :: n < upTo && !pushed[n].Error? ==> Entry(n, pushed[n]) in es
    ensures NonErrors(FramesOf(es)) == NonErrors(pushed[..upTo])
    decreases upTo
  {
    hide NonErrors, FramesOf;
    if upTo == 0 {
      assert es == [];
      NothingInNothing();
      assert pushed[..0] == [];
    } else {
      var n := upTo - 1;
      assert pushed[..upTo] == pushed[..n] + [pushed[n]];
      NonErrorsSnoc(pushed[..n], pushed[n]);
      if es != [] && es[|es| - 1].num == n {
        var front, last := es[..|es| - 1], es[|es| - 1];
        assert es == front + [last];
        WithoutLast(front, last, pushed);
        SameNonErrors(front, pushed, n);
        FramesOfSnoc(front, last);
        NonErrorsSnoc(FramesOf(front), last.frame);
      } else {
        LastIsLargest(es, n);
        assert pushed[n].Error?;
        SameNonErrors(es, pushed, n);
      }
    }
  }

  lemma WithoutLast(front: seq<Entry>, last: Entry, pushed: seq<Frame>)
    requires Ordered(front + [last]) && Labelled(front + [last], pushed)
    ensures last.num < |pushed| && pushed[last.num] == last.frame
    ensures Ordered(front) && Labelled(front, pushed)
    ensures forall e :: e in front ==> e.num < last.num
    ensures forall n: nat :: n < last.num && Entry(n, pushed[n]) in front + [last] ==> Entry(n, pushed[n]) in front
  {
    OrderedParts(front, [last]);
    assert last in front + [last];
  }

  lemma LastIsLargest(es: seq<Entry>, n: nat)
    requires Ordered(es) && (es == [] || es[|es| - 1].num != n) && forall e :: e in es ==> e.num <= n
    ensures forall e :: e in es ==> e.num < n
  {
    if es != [] {
      assert es[|es| - 1] in es;
    }
  }
}
