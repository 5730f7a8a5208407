/** The columns a viewer keeps, and how frames are merged into them (static/js/model.js). */
module ViewerColumns {
  import opened Prelude

  datatype Cell = Num(n: int) | Flag(b: bool) | Null

  /** One object of columns: `t` and `seq`, which the code compares, and the others in the order of the key list. */
  datatype Columns = Columns(t: seq<int>, seqNo: seq<int>, rest: seq<seq<Cell>>)

  /** How many columns `FIX_KEYS` and `RANGE_KEYS` name besides `t` and `seq`. */
  const FIX_REST: nat := 16
  const RANGE_REST: nat := 4

  /** Every column of the object has as many entries as `t`. */
  ghost predicate Aligned(c: Columns, width: nat) {
    |c.seqNo| == |c.t| && |c.rest| == width && forall k :: 0 <= k < |c.rest| ==> |c.rest[k]| == |c.t|
  }

  ghost predicate Increasing(s: seq<int>) {
    forall i, j :: 0 <= i < j < |s| ==> s[i] < s[j]
  }

  ghost predicate NonDecreasing(s: seq<int>) {
    forall i, j :: 0 <= i < j < |s| ==> s[i] <= s[j]
  }

  function Empty(width: nat): Columns {
    Columns([], [], seq(width, k => []))
  }

  function Concat(a: Columns, b: Columns): (r: Columns)
    requires |a.rest| == |b.rest|
    ensures r.t == a.t + b.t && r.seqNo == a.seqNo + b.seqNo && |r.rest| == |a.rest|
    ensures forall k :: 0 <= k < |r.rest| ==> r.rest[k] == a.rest[k] + b.rest[k]
  {
    Columns(a.t + b.t, a.seqNo + b.seqNo, seq(|a.rest|, k requires 0 <= k < |a.rest| => a.rest[k] + b.rest[k]))
  }

  predicate LongEnough(c: Columns, n: nat) {
    n <= |c.t| && n <= |c.seqNo| && forall k :: 0 <= k < |c.rest| ==> n <= |c.rest[k]|
  }

  function Drop(c: Columns, n: nat): (r: Columns)
    requires LongEnough(c, n)
    ensures r.t == c.t[n..] && r.seqNo == c.seqNo[n..] && |r.rest| == |c.rest|
    ensures forall k :: 0 <= k < |r.rest| ==> r.rest[k] == c.rest[k][n..]
  {
    Columns(c.t[n..], c.seqNo[n..], seq(|c.rest|, k requires 0 <= k < |c.rest| => c.rest[k][n..]))
  }

  /** How many entries at the front are not newer than the last one held. */
  function Skip(last: Option<int>, seqNo: seq<int>): (n: nat)
    ensures n <= |seqNo|
    ensures last.None? ==> n == 0
    ensures last.Some? ==> forall i :: 0 <= i < n ==> seqNo[i] <= last.value
    ensures last.Some? && n < |seqNo| ==> seqNo[n] > last.value
  {
    if last.None? || seqNo == [] || seqNo[0] > last.value then 0 else 1 + Skip(last, seqNo[1..])
  }

  function LastOf(s: seq<int>): Option<int> {
    if s == [] then None else Some(s[|s| - 1])
  }

  /** A frame's columns merged behind those held: what is newer than the last entry. */
  function Merged(held: Columns, frame: Columns): Columns
    requires |held.rest| == |frame.rest| && LongEnough(frame, |frame.seqNo|)
  {
    Concat(held, Drop(frame, Skip(LastOf(held.seqNo), frame.seqNo)))
  }

  /** The ranges of every anchor merged; an anchor not seen before gets columns of its own. */
  function MergedRanges(held: map<string, Columns>, frame: map<string, Columns>): map<string, Columns>
    requires AllAligned(held) && AllAligned(frame)
  {
    map id | id in held.Keys + frame.Keys :: MergedRange(held, frame, id)
  }

  ghost predicate AllAligned(ranges: map<string, Columns>) {
    forall id :: id in ranges ==> Aligned(ranges[id], RANGE_REST)
  }

  function HeldRange(held: map<string, Columns>, id: string): Columns {
    if id in held then held[id] else Empty(RANGE_REST)
  }

  function MergedRange(held: map<string, Columns>, frame: map<string, Columns>, id: string): Columns
    requires AllAligned(held) && AllAligned(frame)
  {
    if id in frame then
      assert Aligned(frame[id], RANGE_REST) && Aligned(HeldRange(held, id), RANGE_REST);
      Merged(HeldRange(held, id), frame[id])
    else HeldRange(held, id)
  }

  // ---------------------------------------------------------------- what merging keeps

  lemma MergedAligned(held: Columns, frame: Columns, width: nat)
    requires Aligned(held, width) && Aligned(frame, width)
    ensures |held.rest| == |frame.rest| && Aligned(Merged(held, frame), width)
  {}

  /** Of a frame in order exactly the entries newer than the last one held are taken. */
  lemma SkipsTheOld(last: int, seqNo: seq<int>)
    requires NonDecreasing(seqNo)
    ensures forall i :: 0 <= i < |seqNo| ==> (seqNo[i] > last <==> i >= Skip(Some(last), seqNo))
  {}

  lemma MergedIncreases(held: Columns, frame: Columns, width: nat)
    requires Aligned(held, width) && Aligned(frame, width) && Increasing(held.seqNo) && Increasing(frame.seqNo)
    ensures |held.rest| == |frame.rest| && Increasing(Merged(held, frame).seqNo)
  {
    if held.seqNo != [] {
      SkipsTheOld(held.seqNo[|held.seqNo| - 1], frame.seqNo);
    }
  }

  lemma MergedKeepsOrder(held: Columns, frame: Columns, width: nat)
    requires Aligned(held, width) && Aligned(frame, width) && NonDecreasing(held.seqNo) && NonDecreasing(frame.seqNo)
    ensures |held.rest| == |frame.rest| && NonDecreasing(Merged(held, frame).seqNo)
  {
    if held.seqNo != [] {
      SkipsTheOld(held.seqNo[|held.seqNo| - 1], frame.seqNo);
    }
  }

  lemma SkipAll(last: int, seqNo: seq<int>)
    requires forall i :: 0 <= i < |seqNo| ==> seqNo[i] <= last
    ensures Skip(Some(last), seqNo) == |seqNo|
  {}

  lemma NothingNew(held: Columns, frame: Columns, width: nat)
    requires Aligned(held, width) && Aligned(frame, width)
    requires Skip(LastOf(held.seqNo), frame.seqNo) == |frame.seqNo|
    ensures |held.rest| == |frame.rest| && Merged(held, frame) == held
  {
    hide Skip, Concat, Drop;
    var r := Merged(held, frame);
    forall k | 0 <= k < |r.rest| ensures r.rest[k] == held.rest[k] {}
    assert r.rest == held.rest;
  }

  /** Merging the same frame again changes nothing. */
  lemma MergeIsIdempotent(held: Columns, frame: Columns, width: nat)
    requires Aligned(held, width) && Aligned(frame, width) && NonDecreasing(frame.seqNo)
    ensures |held.rest| == |frame.rest| == |Merged(held, frame).rest|
    ensures Merged(Merged(held, frame), frame) == Merged(held, frame)
  {
    MergedAligned(held, frame, width);
    hide Concat, Drop;
    var once := Merged(held, frame);
    var n := Skip(LastOf(held.seqNo), frame.seqNo);
    if frame.seqNo != [] {
      var last := frame.seqNo[|frame.seqNo| - 1];
      if n == |frame.seqNo| {
        NothingNew(held, frame, width);
      } else {
        assert once.seqNo[|once.seqNo| - 1] == last;
        SkipAll(last, frame.seqNo);
      }
    }
    NothingNew(once, frame, width);
  }

  lemma {:induction false} SkipConcat(last: int, f: seq<int>, g: seq<int>)
    ensures Skip(Some(last), f + g) ==
      if Skip(Some(last), f) == |f| then |f| + Skip(Some(last), g) else Skip(Some(last), f)
  {
    if f == [] {
      assert f + g == g;
    } else if f[0] <= last {
      assert (f + g)[1..] == f[1..] + g;
      SkipConcat(last, f[1..], g);
    }
  }

  lemma NewerSkipsNone(last: int, g: seq<int>)
    requires g != [] ==> g[0] > last
    ensures Skip(Some(last), g) == 0
  {}

  /** The second frame starts with a newer cycle than the first ends with. */
  ghost predicate Precedes(f: seq<int>, g: seq<int>) {
    f != [] && g != [] ==> f[|f| - 1] < g[0]
  }

  lemma SplitIncreasing(f: seq<int>, g: seq<int>)
    requires Increasing(f + g)
    ensures Increasing(f) && Increasing(g) && Precedes(f, g)
  {
    forall i, j | 0 <= i < j < |f| ensures f[i] < f[j] {
      assert (f + g)[i] < (f + g)[j];
    }
    forall i, j | 0 <= i < j < |g| ensures g[i] < g[j] {
      assert (f + g)[|f| + i] < (f + g)[|f| + j];
    }
    if f != [] && g != [] {
      assert (f + g)[|f| - 1] < (f + g)[|f|];
    }
  }

  lemma ConcatDrop(f: Columns, g: Columns, width: nat, n: nat)
    requires Aligned(f, width) && Aligned(g, width) && n <= |f.t| + |g.t|
    ensures |f.rest| == |g.rest| && Aligned(Concat(f, g), width)
    ensures n <= |f.t| ==> Drop(Concat(f, g), n) == Concat(Drop(f, n), g)
    ensures n >= |f.t| ==> Drop(Concat(f, g), n) == Drop(g, n - |f.t|)
  {
    hide Concat, Drop;
    var all := Concat(f, g);
    if n <= |f.t| {
      var l, r := Drop(all, n), Concat(Drop(f, n), g);
      forall k | 0 <= k < |l.rest| ensures l.rest[k] == r.rest[k] {
        assert (f.rest[k] + g.rest[k])[n..] == f.rest[k][n..] + g.rest[k];
      }
      assert l.rest == r.rest && l.t == r.t && l.seqNo == r.seqNo;
    }
    if n >= |f.t| {
      var l, r := Drop(all, n), Drop(g, n - |f.t|);
      forall k | 0 <= k < |l.rest| ensures l.rest[k] == r.rest[k] {
        assert (f.rest[k] + g.rest[k])[n..] == g.rest[k][n - |f.t|..];
      }
      assert l.rest == r.rest && l.t == r.t && l.seqNo == r.seqNo;
    }
  }

  lemma ConcatAssociative(a: Columns, b: Columns, c: Columns)
    requires |a.rest| == |b.rest| == |c.rest|
    ensures Concat(Concat(a, b), c) == Concat(a, Concat(b, c))
  {
    var l, r := Concat(Concat(a, b), c), Concat(a, Concat(b, c));
    assert l.t == r.t && l.seqNo == r.seqNo;
    forall k | 0 <= k < |l.rest| ensures l.rest[k] == r.rest[k] {
      assert l.rest[k] == a.rest[k] + b.rest[k] + c.rest[k];
      assert r.rest[k] == a.rest[k] + (b.rest[k] + c.rest[k]);
    }
    assert l.rest == r.rest;
  }

  lemma DropNone(c: Columns, width: nat)
    requires Aligned(c, width)
    ensures Drop(c, 0) == c
  {
    hide Drop;
    var r := Drop(c, 0);
    forall k | 0 <= k < |r.rest| ensures r.rest[k] == c.rest[k] {}
    assert r.rest == c.rest;
  }

  /** Two frames merged one after the other are the frame they make together. */
  lemma MergeComposes(held: Columns, f: Columns, g: Columns, width: nat)
    requires Aligned(held, width) && Aligned(f, width) && Aligned(g, width) && Precedes(f.seqNo, g.seqNo)
    ensures |held.rest| == |f.rest| == |g.rest| == |Merged(held, f).rest|
    ensures Aligned(Concat(f, g), width) && Merged(held, Concat(f, g)) == Merged(Merged(held, f), g)
  {
    hide Concat, Drop, Skip, Merged;
    var last, n := LastOf(held.seqNo), Skip(LastOf(held.seqNo), f.seqNo);
    SkipBoth(last, f.seqNo, g.seqNo);
    MergedAligned(held, f, width);
    ConcatDrop(f, g, width, 0);
    if n == |f.seqNo| {
      ComposeOld(held, f, g, width);
    } else {
      ComposeNew(held, f, g, width);
    }
  }

  /** How much of two frames together is skipped: all of the first and some of the second, or some of the first. */
  lemma SkipBoth(last: Option<int>, f: seq<int>, g: seq<int>)
    ensures Skip(last, f + g) == if Skip(last, f) == |f| then |f| + Skip(last, g) else Skip(last, f)
  {
    if last.Some? {
      SkipConcat(last.value, f, g);
    }
  }

  lemma ComposeOld(held: Columns, f: Columns, g: Columns, width: nat)
    requires Aligned(held, width) && Aligned(f, width) && Aligned(g, width) && Aligned(Concat(f, g), width)
    requires Skip(LastOf(held.seqNo), f.seqNo) == |f.seqNo|
    requires Skip(LastOf(held.seqNo), f.seqNo + g.seqNo) == |f.seqNo| + Skip(LastOf(held.seqNo), g.seqNo)
    ensures |Merged(held, f).rest| == |g.rest| && Merged(held, Concat(f, g)) == Merged(Merged(held, f), g)
  {
    hide Concat, Drop, Skip;
    NothingNew(held, f, width);
    ConcatDrop(f, g, width, |f.seqNo| + Skip(LastOf(held.seqNo), g.seqNo));
  }

  lemma ComposeNew(held: Columns, f: Columns, g: Columns, width: nat)
    requires Aligned(held, width) && Aligned(f, width) && Aligned(g, width) && Aligned(Concat(f, g), width)
    requires var n := Skip(LastOf(held.seqNo), f.seqNo); n < |f.seqNo| && Skip(LastOf(held.seqNo), f.seqNo + g.seqNo) == n
    requires Precedes(f.seqNo, g.seqNo)
    ensures |Merged(held, f).rest| == |g.rest| && Merged(held, Concat(f, g)) == Merged(Merged(held, f), g)
  {
    hide Concat, Drop, Skip;
    var n := Skip(LastOf(held.seqNo), f.seqNo);
    var once := Merged(held, f);
    assert once == Concat(held, Drop(f, n));
    ConcatDrop(f, g, width, n);
    ConcatAssociative(held, Drop(f, n), g);
    assert LastOf(once.seqNo) == Some(f.seqNo[|f.seqNo| - 1]);
    NewerSkipsNone(f.seqNo[|f.seqNo| - 1], g.seqNo);
    DropNone(g, width);
    assert Merged(once, g) == Concat(once, g);
  }

  /** Frames merged one after another. */
  ghost function MergedAll(held: Columns, frames: seq<Columns>, width: nat): (r: Columns)
    requires Aligned(held, width) && forall i :: 0 <= i < |frames| ==> Aligned(frames[i], width)
    ensures Aligned(r, width)
  {
    if frames == [] then held
    else
      var front, last := frames[..|frames| - 1], frames[|frames| - 1];
      assert Aligned(last, width) && forall i :: 0 <= i < |front| ==> front[i] == frames[i];
      MergedAligned(MergedAll(held, front, width), last, width);
      Merged(MergedAll(held, front, width), last)
  }

  /** The frames laid end to end. */
  ghost function Joined(frames: seq<Columns>, width: nat): (r: Columns)
    requires forall i :: 0 <= i < |frames| ==> Aligned(frames[i], width)
    ensures Aligned(r, width)
  {
    if frames == [] then Empty(width)
    else
      var front, last := frames[..|frames| - 1], frames[|frames| - 1];
      assert Aligned(last, width) && forall i :: 0 <= i < |front| ==> front[i] == frames[i];
      Concat(Joined(front, width), last)
  }

  /** Each frame starts with a newer cycle than those before it end with. */
  ghost predicate InTurn(frames: seq<Columns>, width: nat)
    requires forall i :: 0 <= i < |frames| ==> Aligned(frames[i], width)
  {
    frames == [] ||
    var front, last := frames[..|frames| - 1], frames[|frames| - 1];
    InTurn(front, width) && Precedes(Joined(front, width).seqNo, last.seqNo)
  }

  /** A stream of increasing numbers may be cut anywhere. */
  lemma {:induction false} IncreasingInTurn(frames: seq<Columns>, width: nat)
    requires forall i :: 0 <= i < |frames| ==> Aligned(frames[i], width)
    requires Increasing(Joined(frames, width).seqNo)
    ensures InTurn(frames, width)
  {
    if frames != [] {
      var front, last := frames[..|frames| - 1], frames[|frames| - 1];
      assert forall i :: 0 <= i < |front| ==> front[i] == frames[i];
      SplitIncreasing(Joined(front, width).seqNo, last.seqNo);
      IncreasingInTurn(front, width);
    }
  }

  /** However a stream is cut into frames, between cycles, merging them shows the stream's newer part, once. */
  lemma {:induction false} CuttingDoesNotMatter(held: Columns, frames: seq<Columns>, width: nat)
    requires Aligned(held, width) && forall i :: 0 <= i < |frames| ==> Aligned(frames[i], width)
    requires InTurn(frames, width)
    ensures |held.rest| == |Joined(frames, width).rest|
    ensures MergedAll(held, frames, width) == Merged(held, Joined(frames, width))
  {
    hide Concat, Merged, Precedes;
    if frames == [] {
      NothingNew(held, Empty(width), width);
    } else {
      var front, last := frames[..|frames| - 1], frames[|frames| - 1];
      CuttingDoesNotMatter(held, front, width);
      MergeComposes(held, Joined(front, width), last, width);
    }
  }

  /** A snapshot that overlaps what is held adds exactly what it has beyond it. */
  lemma SnapshotOverlaps(old_: Columns, shared: Columns, new_: Columns, width: nat)
    requires Aligned(old_, width) && Aligned(shared, width) && Aligned(new_, width)
    requires NonDecreasing(shared.seqNo) && shared.seqNo != [] && Precedes(shared.seqNo, new_.seqNo)
    ensures |old_.rest| == |shared.rest| == |new_.rest|
    ensures Aligned(Concat(old_, shared), width) && Aligned(Concat(shared, new_), width)
    ensures Merged(Concat(old_, shared), Concat(shared, new_)) == Concat(Concat(old_, shared), new_)
  {
    hide Concat, Drop, Skip, NonDecreasing, Precedes, Merged;
    ConcatDrop(old_, shared, width, 0);
    ConcatDrop(shared, new_, width, |shared.t|);
    DropNone(new_, width);
    OverlapSkip(old_.seqNo, shared.seqNo, new_.seqNo);
    OverlapMerged(Concat(old_, shared), shared, new_, width);
  }

  lemma OverlapSkip(old_: seq<int>, shared: seq<int>, new_: seq<int>)
    requires shared != [] && NonDecreasing(shared) && Precedes(shared, new_)
    ensures Skip(LastOf(old_ + shared), shared + new_) == |shared|
  {
    hide Skip;
    var last := shared[|shared| - 1];
    assert LastOf(old_ + shared) == Some(last);
    SkipBoth(Some(last), shared, new_);
    SkipUpTo(shared);
    NewerSkipsNone(last, new_);
  }

  lemma OverlapMerged(held: Columns, shared: Columns, new_: Columns, width: nat)
    requires Aligned(held, width) && Aligned(shared, width) && Aligned(new_, width) && Aligned(Concat(shared, new_), width)
    requires Skip(LastOf(held.seqNo), shared.seqNo + new_.seqNo) == |shared.seqNo|
    requires Drop(Concat(shared, new_), |shared.t|) == new_
    ensures Merged(held, Concat(shared, new_)) == Concat(held, new_)
  {
    hide Concat, Drop, Skip;
  }

  lemma SkipUpTo(seqNo: seq<int>)
    requires NonDecreasing(seqNo) && seqNo != []
    ensures Skip(Some(seqNo[|seqNo| - 1]), seqNo) == |seqNo|
  {
    SkipAll(seqNo[|seqNo| - 1], seqNo);
  }

  // ---------------------------------------------------------------- binary search

  /** The loop of `lastIndexAtOrBefore`, from any of its states. */
  function Search(values: seq<int>, value: int, lo: int, hi: int, found: int): int
    requires 0 <= lo && hi < |values|
    decreases hi - lo + 1
  {
    if lo > hi then found
    else
      var mid := (lo + hi) / 2;
      if values[mid] <= value then Search(values, value, mid + 1, hi, mid) else Search(values, value, lo, mid - 1, found)
  }

  function LastAtOrBefore(values: seq<int>, value: int): int {
    Search(values, value, 0, |values| - 1, -1)
  }

  lemma {:induction false} SearchBounds(values: seq<int>, value: int, lo: int, hi: int, found: int)
    requires 0 <= lo && hi < |values| && -1 <= found < |values|
    ensures -1 <= Search(values, value, lo, hi, found) < |values|
    decreases hi - lo + 1
  {
    if lo <= hi {
      var mid := (lo + hi) / 2;
      if values[mid] <= value {
        SearchBounds(values, value, mid + 1, hi, mid);
      } else {
        SearchBounds(values, value, lo, mid - 1, found);
      }
    }
  }

  /** In ascending values: the last position at or below `value`, or -1. */
  lemma {:induction false} SearchFinds(values: seq<int>, value: int, lo: int, hi: int, found: int)
    requires NonDecreasing(values) && 0 <= lo <= hi + 1 && hi < |values| && found == lo - 1
    requires forall i :: 0 <= i < lo ==> values[i] <= value
    requires forall i :: hi < i < |values| ==> values[i] > value
    ensures var r := Search(values, value, lo, hi, found);
      -1 <= r < |values| && forall i :: 0 <= i < |values| ==> (values[i] <= value <==> i <= r)
    decreases hi - lo + 1
  {
    if lo <= hi {
      var mid := (lo + hi) / 2;
      if values[mid] <= value {
        forall i | 0 <= i < mid + 1 ensures values[i] <= value {
          assert i < mid ==> values[i] <= values[mid];
        }
        SearchFinds(values, value, mid + 1, hi, mid);
      } else {
        forall i | mid - 1 < i < |values| ensures values[i] > value {
          assert mid < i ==> values[mid] <= values[i];
        }
        SearchFinds(values, value, lo, mid - 1, found);
      }
    }
  }

  lemma LastAtOrBeforeFinds(values: seq<int>, value: int)
    requires NonDecreasing(values)
    ensures var r := LastAtOrBefore(values, value);
      -1 <= r < |values| && forall i :: 0 <= i < |values| ==> (values[i] <= value <==> i <= r)
  {
    SearchFinds(values, value, 0, |values| - 1, -1);
  }

  method LastIndexAtOrBefore(values: seq<int>, value: int) returns (found: int)
    ensures found == LastAtOrBefore(values, value) && -1 <= found < |values|
  {
    SearchBounds(values, value, 0, |values| - 1, -1);
    var lo, hi := 0, |values| - 1;
    found := -1;
    while lo <= hi
      invariant 0 <= lo && hi < |values|
      invariant Search(values, value, lo, hi, found) == LastAtOrBefore(values, value)
      decreases hi - lo + 1
    {
      var mid := (lo + hi) / 2;
      if values[mid] <= value {
        found := mid;
        lo := mid + 1;
      } else {
        hi := mid - 1;
      }
    }
  }

  // ---------------------------------------------------------------- trimming and looking up

  /** `trimBefore` on one object of columns. */
  function Trimmed(c: Columns, tMin: int): Columns
    requires LongEnough(c, |c.t|)
  {
    SearchBounds(c.t, tMin - 1, 0, |c.t| - 1, -1);
    Drop(c, LastAtOrBefore(c.t, tMin - 1) + 1)
  }

  /** Trimming keeps the columns aligned and in order, and when times do not go back, exactly what is from `tMin` on. */
  lemma TrimKeeps(c: Columns, tMin: int, width: nat)
    requires Aligned(c, width)
    ensures var r := Trimmed(c, tMin);
      && Aligned(r, width)
      && (Increasing(c.seqNo) ==> Increasing(r.seqNo)) && (NonDecreasing(c.seqNo) ==> NonDecreasing(r.seqNo))
      && (NonDecreasing(c.t) ==>
            && (forall i :: 0 <= i < |r.t| ==> r.t[i] >= tMin)
            && (forall i :: 0 <= i < |c.t| - |r.t| ==> c.t[i] < tMin))
  {
    SearchBounds(c.t, tMin - 1, 0, |c.t| - 1, -1);
    if NonDecreasing(c.t) {
      LastAtOrBeforeFinds(c.t, tMin - 1);
    }
    hide Search;
  }

  /** One anchor's range in one cycle. */
  datatype RangeNow = RangeNow(t: int, seqNo: int, rest: seq<Cell>)

  function RangeAt(c: Columns, i: nat): RangeNow
    requires i < |c.t| && LongEnough(c, |c.t|)
  {
    RangeNow(c.t[i], c.seqNo[i], seq(|c.rest|, k requires 0 <= k < |c.rest| => c.rest[k][i]))
  }

  /** In columns with numbers in order the search finds a cycle's entry, the last if it has several. */
  lemma EntryFound(c: Columns, number: int)
    requires |c.seqNo| == |c.t| && NonDecreasing(c.seqNo)
    ensures var i := LastAtOrBefore(c.seqNo, number);
      && -1 <= i < |c.seqNo|
      && (i >= 0 && c.seqNo[i] == number <==> number in c.seqNo)
      && (forall j :: 0 <= j < |c.seqNo| && c.seqNo[j] == number ==> j <= i)
  {
    LastAtOrBeforeFinds(c.seqNo, number);
  }
}

module ViewerSessions {
  import opened Prelude
  import opened ViewerColumns

  /** An anchor's numbers never go back; one repeats when a packet names the anchor twice in a cycle. */
  ghost predicate AllInOrder(ranges: map<string, Columns>) {
    forall id :: id in ranges ==> NonDecreasing(ranges[id].seqNo)
  }

  /** A frame's columns as the server makes them. */
  ghost predicate GoodFrame(fix: Option<Columns>, ranges: map<string, Columns>) {
    && (fix.Some? ==> Aligned(fix.value, FIX_REST) && Increasing(fix.value.seqNo))
    && AllAligned(ranges) && AllInOrder(ranges)
  }

  lemma MergedRangesKeep(held: map<string, Columns>, frame: map<string, Columns>)
    requires AllAligned(held) && AllInOrder(held) && AllAligned(frame) && AllInOrder(frame)
    ensures AllAligned(MergedRanges(held, frame)) && AllInOrder(MergedRanges(held, frame))
  {
    forall id | id in MergedRanges(held, frame)
      ensures Aligned(MergedRanges(held, frame)[id], RANGE_REST) && NonDecreasing(MergedRanges(held, frame)[id].seqNo)
    {
      if id in frame {
        var before := HeldRange(held, id);
        MergedAligned(before, frame[id], RANGE_REST);
        MergedKeepsOrder(before, frame[id], RANGE_REST);
      }
    }
  }

  lemma SameRanges(a: map<string, Columns>, b: map<string, Columns>)
    requires forall id :: (id in a <==> id in b) && (id in a ==> a[id] == b[id])
    ensures a == b
  {}

  /** Merging the ranges of the same frame again changes nothing. */
  lemma RangesIdempotent(held: map<string, Columns>, frame: map<string, Columns>)
    requires AllAligned(held) && AllInOrder(held) && AllAligned(frame) && AllInOrder(frame)
    ensures AllAligned(MergedRanges(held, frame))
    ensures MergedRanges(MergedRanges(held, frame), frame) == MergedRanges(held, frame)
  {
    MergedRangesKeep(held, frame);
    hide MergedRanges, AllAligned, AllInOrder;
    var once := MergedRanges(held, frame);
    var twice := MergedRanges(once, frame);
    forall id ensures (id in once <==> id in twice) && (id in once ==> once[id] == twice[id]) {
      RangeIdempotent(held, frame, id);
    }
    SameRanges(twice, once);
  }

  lemma RangeIdempotent(held: map<string, Columns>, frame: map<string, Columns>, id: string)
    requires AllAligned(held) && AllAligned(frame) && AllInOrder(frame) && AllAligned(MergedRanges(held, frame))
    ensures var once := MergedRanges(held, frame);
      var twice := MergedRanges(once, frame);
      (id in once <==> id in twice) && (id in once ==> once[id] == twice[id])
  {
    hide Merged;
    HeldAligned(held, id);
    if id in frame {
      MergeIsIdempotent(HeldRange(held, id), frame[id], RANGE_REST);
    }
  }

  lemma HeldAligned(held: map<string, Columns>, id: string)
    requires AllAligned(held)
    ensures Aligned(HeldRange(held, id), RANGE_REST)
  {}

  /** Two frames' ranges laid end to end, anchor by anchor. */
  function ConcatRanges(f: map<string, Columns>, g: map<string, Columns>): map<string, Columns>
    requires AllAligned(f) && AllAligned(g)
  {
    map id | id in f.Keys + g.Keys :: ConcatRange(f, g, id)
  }

  function ConcatRange(f: map<string, Columns>, g: map<string, Columns>, id: string): Columns
    requires AllAligned(f) && AllAligned(g)
  {
    assert Aligned(HeldRange(f, id), RANGE_REST) && Aligned(HeldRange(g, id), RANGE_REST);
    Concat(HeldRange(f, id), HeldRange(g, id))
  }

  lemma ConcatRangesAligned(f: map<string, Columns>, g: map<string, Columns>)
    requires AllAligned(f) && AllAligned(g)
    ensures AllAligned(ConcatRanges(f, g))
  {
    forall id | id in ConcatRanges(f, g) ensures Aligned(ConcatRanges(f, g)[id], RANGE_REST) {
      ConcatDrop(HeldRange(f, id), HeldRange(g, id), RANGE_REST, 0);
    }
  }

  /** The ranges of two frames merged one after the other are those of the frame they make together. */
  lemma RangesCompose(held: map<string, Columns>, f: map<string, Columns>, g: map<string, Columns>)
    requires AllAligned(held) && AllAligned(f) && AllAligned(g)
    requires forall id :: id in f && id in g ==> Precedes(f[id].seqNo, g[id].seqNo)
    ensures AllAligned(ConcatRanges(f, g)) && AllAligned(MergedRanges(held, f))
    ensures MergedRanges(held, ConcatRanges(f, g)) == MergedRanges(MergedRanges(held, f), g)
  {
    ConcatRangesAligned(f, g);
    MergedRangesAligned(held, f);
    hide AllAligned, MergedRanges, ConcatRanges, Precedes;
    var both, twice := MergedRanges(held, ConcatRanges(f, g)), MergedRanges(MergedRanges(held, f), g);
    forall id ensures (id in both <==> id in twice) && (id in both ==> both[id] == twice[id]) {
      RangeComposes(held, f, g, id);
    }
    SameRanges(both, twice);
  }

  lemma MergedRangesAligned(held: map<string, Columns>, frame: map<string, Columns>)
    requires AllAligned(held) && AllAligned(frame)
    ensures AllAligned(MergedRanges(held, frame))
  {
    forall id | id in MergedRanges(held, frame) ensures Aligned(MergedRanges(held, frame)[id], RANGE_REST) {
      if id in frame {
        MergedAligned(HeldRange(held, id), frame[id], RANGE_REST);
      }
    }
  }

  lemma RangeComposes(held: map<string, Columns>, f: map<string, Columns>, g: map<string, Columns>, id: string)
    requires AllAligned(held) && AllAligned(f) && AllAligned(g)
    requires id in f && id in g ==> Precedes(f[id].seqNo, g[id].seqNo)
    requires AllAligned(ConcatRanges(f, g)) && AllAligned(MergedRanges(held, f))
    ensures var both, twice := MergedRanges(held, ConcatRanges(f, g)), MergedRanges(MergedRanges(held, f), g);
      (id in both <==> id in twice) && (id in both ==> both[id] == twice[id])
  {
    var h, a, b := HeldRange(held, id), HeldRange(f, id), HeldRange(g, id);
    HeldAligned(held, id);
    HeldAligned(f, id);
    HeldAligned(g, id);
    hide Concat, Merged, Drop, Skip, Aligned;
    if id in f || id in g {
      MergeComposes(h, a, b, RANGE_REST);
      NothingInEmpty(h);
      NothingMore(h, a);
    }
  }

  lemma NothingInEmpty(held: Columns)
    requires Aligned(held, RANGE_REST)
    ensures |held.rest| == RANGE_REST && Merged(held, Empty(RANGE_REST)) == held
  {
    NothingNew(held, Empty(RANGE_REST), RANGE_REST);
  }

  lemma NothingMore(held: Columns, frame: Columns)
    requires Aligned(held, RANGE_REST) && Aligned(frame, RANGE_REST)
    ensures |held.rest| == |frame.rest| == |Merged(held, frame).rest| == |Empty(RANGE_REST).rest|
    ensures Merged(Merged(held, frame), Empty(RANGE_REST)) == Merged(held, frame)
  {
    MergedAligned(held, frame, RANGE_REST);
    NothingInEmpty(Merged(held, frame));
  }

  /** `SessionData`: the fix columns and the ranges of each anchor. */
  class SessionData {
    var fix: Columns
    var ranges: map<string, Columns>

    /** All columns aligned, the numbers of the fixes strictly increasing and those of the ranges in order. */
    ghost predicate Valid()
      reads this
    {
      && Aligned(fix, FIX_REST) && Increasing(fix.seqNo) && AllAligned(ranges) && AllInOrder(ranges)
    }

    constructor ()
      ensures Valid() && fix == Empty(FIX_REST) && ranges == map[]
    {
      fix, ranges := Empty(FIX_REST), map[];
    }

    /** Appends every column of `source` to `target`, entry by entry. */
    static method AppendColumns(target: Columns, source: Columns, width: nat) returns (r: Columns)
      requires Aligned(target, width) && Aligned(source, width)
      ensures |target.rest| == |source.rest| && r == Concat(target, source)
    {
      var n := |source.t|;
      r := target.(t := Push(target.t, source.t, n), seqNo := Push(target.seqNo, source.seqNo, n));
      for k := 0 to width
        invariant r.t == target.t + source.t && r.seqNo == target.seqNo + source.seqNo && |r.rest| == width
        invariant forall j :: 0 <= j < k ==> r.rest[j] == target.rest[j] + source.rest[j]
        invariant forall j :: k <= j < width ==> r.rest[j] == target.rest[j]
      {
        r := r.(rest := r.rest[k := Push(r.rest[k], source.rest[k], n)]);
      }
      assert r.rest == Concat(target, source).rest;
    }

    static function Push<T>(dst: seq<T>, src: seq<T>, n: nat): seq<T>
      requires n <= |src|
    {
      dst + src[..n]
    }

    /** Counts the entries at the front that are not newer than the last one held. */
    static method CountOld(last: Option<int>, seqNo: seq<int>) returns (skip: nat)
      ensures skip == Skip(last, seqNo)
    {
      skip := 0;
      if last.Some? {
        while skip < |seqNo| && seqNo[skip] <= last.value
          invariant skip <= |seqNo| && Skip(last, seqNo) == skip + Skip(last, seqNo[skip..])
        {
          assert seqNo[skip..][1..] == seqNo[skip + 1..];
          skip := skip + 1;
        }
      }
    }

    /** `append`: merges a frame behind what is held. */
    method Append(frame: Option<Columns>, frameRanges: map<string, Columns>)
      requires Valid() && GoodFrame(frame, frameRanges)
      modifies this
      ensures Valid()
      ensures fix == if frame.None? then old(fix) else Merged(old(fix), frame.value)
      ensures ranges == MergedRanges(old(ranges), frameRanges)
    {
      if frame.Some? {
        AppendFix(frame.value);
      }
      AppendRanges(frameRanges);
    }

    method AppendFix(frame: Columns)
      requires Valid() && Aligned(frame, FIX_REST) && Increasing(frame.seqNo)
      modifies this`fix
      ensures Valid() && |frame.rest| == |old(fix).rest| && fix == Merged(old(fix), frame)
    {
      MergedAligned(fix, frame, FIX_REST);
      MergedIncreases(fix, frame, FIX_REST);
      DropNone(frame, FIX_REST);
      if |frame.t| > 0 {
        var skip := CountOld(LastOf(fix.seqNo), frame.seqNo);
        if skip == 0 {
          fix := AppendColumns(fix, frame, FIX_REST);
        } else if skip < |frame.seqNo| {
          fix := AppendColumns(fix, Drop(frame, skip), FIX_REST);
        } else {
          NothingNew(fix, frame, FIX_REST);
        }
      } else {
        NothingNew(fix, frame, FIX_REST);
      }
    }

    method AppendRanges(frame: map<string, Columns>)
      requires Valid() && AllAligned(frame) && AllInOrder(frame)
      modifies this`ranges
      ensures Valid() && ranges == MergedRanges(old(ranges), frame)
    {
      MergedRangesKeep(ranges, frame);
      ghost var start := ranges;
      ghost var goal := MergedRanges(ranges, frame);
      GoalKeys(start, frame);
      ProgressStart(start, goal, frame.Keys);
      hide Merged, Increasing, Aligned, MergedRanges, Progress;
      var left := frame.Keys;
      while left != {}
        invariant left <= frame.Keys
        invariant Progress(start, goal, frame.Keys, ranges, left)
        decreases left
      {
        var id :| id in left;
        var target := if id in ranges then ranges[id] else Empty(RANGE_REST);
        GoalAt(start, frame, id);
        ProgressTarget(start, goal, frame.Keys, ranges, left, id);
        var merged := AppendNewer(target, frame[id]);
        ProgressStep(start, goal, frame.Keys, ranges, left, id);
        ranges := ranges[id := merged];
        left := left - {id};
      }
      ProgressEnd(start, goal, frame.Keys, ranges);
    }

    /** The anchors of the frame outside `left` are merged, the others as before. */
    static ghost predicate Progress(start: map<string, Columns>, goal: map<string, Columns>, keys: set<string>,
                                    now: map<string, Columns>, left: set<string>) {
      && (forall id :: id in goal <==> id in start || id in keys)
      && (forall id :: id in now <==> id in start || (id in keys && id !in left))
      && (forall id :: id in now && id !in left ==> now[id] == goal[id])
      && (forall id :: id in now && id in left ==> now[id] == start[id])
    }

    static lemma ProgressStart(start: map<string, Columns>, goal: map<string, Columns>, keys: set<string>)
      requires forall id :: id in goal <==> id in start || id in keys
      requires forall id :: id in start && id !in keys ==> goal[id] == start[id]
      ensures Progress(start, goal, keys, start, keys)
    {}

    static lemma ProgressTarget(start: map<string, Columns>, goal: map<string, Columns>, keys: set<string>,
                                now: map<string, Columns>, left: set<string>, id: string)
      requires Progress(start, goal, keys, now, left) && id in left
      ensures HeldRange(now, id) == HeldRange(start, id)
    {}

    static lemma ProgressStep(start: map<string, Columns>, goal: map<string, Columns>, keys: set<string>,
                              now: map<string, Columns>, left: set<string>, id: string)
      requires Progress(start, goal, keys, now, left) && id in left && id in keys
      ensures id in goal && Progress(start, goal, keys, now[id := goal[id]], left - {id})
    {}

    static lemma ProgressEnd(start: map<string, Columns>, goal: map<string, Columns>, keys: set<string>, now: map<string, Columns>)
      requires Progress(start, goal, keys, now, {})
      ensures now == goal
    {
      assert now.Keys == goal.Keys;
    }

    static lemma GoalKeys(held: map<string, Columns>, frame: map<string, Columns>)
      requires AllAligned(held) && AllAligned(frame)
      ensures forall id :: id in MergedRanges(held, frame) <==> id in held || id in frame
      ensures forall id :: id in held && id !in frame ==> MergedRanges(held, frame)[id] == held[id]
    {}

    static lemma GoalAt(held: map<string, Columns>, frame: map<string, Columns>, id: string)
      requires AllAligned(held) && AllAligned(frame) && id in frame
      ensures Aligned(frame[id], RANGE_REST) && Aligned(HeldRange(held, id), RANGE_REST)
      ensures |HeldRange(held, id).rest| == |frame[id].rest| && LongEnough(frame[id], |frame[id].seqNo|)
      ensures id in MergedRanges(held, frame)
      ensures MergedRanges(held, frame)[id] == Merged(HeldRange(held, id), frame[id])
    {}

    static method AppendNewer(target: Columns, source: Columns) returns (r: Columns)
      requires Aligned(target, RANGE_REST) && Aligned(source, RANGE_REST)
      ensures |target.rest| == |source.rest| && r == Merged(target, source)
    {
      var skip := CountOld(LastOf(target.seqNo), source.seqNo);
      if skip >= |source.seqNo| {
        NothingNew(target, source, RANGE_REST);
        return target;
      }
      DropNone(source, RANGE_REST);
      r := AppendColumns(target, if skip > 0 then Drop(source, skip) else source, RANGE_REST);
    }

    /** `trimBefore`: drops the entries at the front that are before `tMin`. */
    method TrimBefore(tMin: int)
      requires Valid()
      modifies this
      ensures Valid() && fix == Trimmed(old(fix), tMin)
      ensures ranges.Keys == old(ranges).Keys && forall id :: id in ranges ==> ranges[id] == Trimmed(old(ranges)[id], tMin)
    {
      TrimKeeps(fix, tMin, FIX_REST);
      fix := DropBefore(fix, tMin, FIX_REST);
      var left := ranges.Keys;
      while left != {}
        invariant left <= ranges.Keys == old(ranges).Keys
        invariant fix == Trimmed(old(fix), tMin)
        invariant forall id :: id in ranges ==>
          ranges[id] == if id in left then old(ranges)[id] else Trimmed(old(ranges)[id], tMin)
        decreases left
      {
        var id :| id in left;
        var kept := DropBefore(ranges[id], tMin, RANGE_REST);
        ranges := ranges[id := kept];
        left := left - {id};
      }
      forall id | id in ranges ensures Aligned(ranges[id], RANGE_REST) && NonDecreasing(ranges[id].seqNo) {
        TrimKeeps(old(ranges)[id], tMin, RANGE_REST);
      }
    }

    static method DropBefore(c: Columns, tMin: int, ghost width: nat) returns (r: Columns)
      requires Aligned(c, width)
      ensures r == Trimmed(c, tMin)
    {
      var i := LastIndexAtOrBefore(c.t, tMin - 1);
      if i + 1 <= 0 {
        DropNone(c, width);
        return c;
      }
      return Drop(c, i + 1);
    }

    static ghost predicate LastOfCycle(c: Columns, number: int, i: nat) {
      && LongEnough(c, |c.t|) && i < |c.t| && c.seqNo[i] == number
      && forall j :: i < j < |c.seqNo| ==> c.seqNo[j] != number
    }

    /** `rangesAtIndex`: exactly the anchors with an entry of that cycle's number, each with its last such entry. */
    method RangesAtIndex(index: int) returns (r: map<string, RangeNow>)
      requires Valid()
      ensures !(0 <= index < |fix.seqNo|) ==> r == map[]
      ensures 0 <= index < |fix.seqNo| ==>
        forall id :: id in r <==> id in ranges && fix.seqNo[index] in ranges[id].seqNo
      ensures 0 <= index < |fix.seqNo| ==>
        forall id :: id in r ==> exists i: nat ::
          LastOfCycle(ranges[id], fix.seqNo[index], i) && r[id] == RangeAt(ranges[id], i)
    {
      r := map[];
      if index < 0 || index >= |fix.seqNo| {
        return;
      }
      var number := fix.seqNo[index];
      var left := ranges.Keys;
      while left != {}
        invariant left <= ranges.Keys
        invariant forall id :: id in r <==> id in ranges && id !in left && number in ranges[id].seqNo
        invariant forall id :: id in r ==> exists i: nat ::
          LastOfCycle(ranges[id], number, i) && r[id] == RangeAt(ranges[id], i)
        decreases left
      {
        var id :| id in left;
        var c := ranges[id];
        var i := LastIndexAtOrBefore(c.seqNo, number);
        EntryFound(c, number);
        if i >= 0 && c.seqNo[i] == number {
          r := r[id := RangeAt(c, i)];
        }
        left := left - {id};
      }
    }
  }
}
