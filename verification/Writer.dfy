/** The batching writer of ingest/writer.py: its state, and a step for every stretch between two awaits. */
module Writers {
  import opened TelemetryTables

  datatype Config = Config(flushRows: int, maxPendingRows: int)

  datatype Stats = Stats(
    writtenRows: int, duplicateRows: int, committedBatches: int, failedBatches: int, failedRows: int,
    droppedPackets: int, droppedRows: int)

  /**
   * Where `run` stands: not begun, waiting for the wakeup or the interval, waiting for the store with a batch (`final`
   * for the flush after the loop), or returned.
   */
  datatype Phase = Created | Waiting | Writing(batch: seq<Received>, rows: int, final: bool) | Returned

  /** What became of a packet. */
  datatype Fate = Pending | InFlight | Stored | Failed | Dropped

  /**
   * `submitted`, `fates`, and where the queue (`from`) and the last batch (`lo`) begin among the packets submitted are
   * history.
   */
  datatype Writer = Writer(
    pending: seq<Received>, pendingRows: int, wakeup: bool, stopping: bool, phase: Phase, stats: Stats, tables: Tables,
    submitted: seq<Received>, fates: seq<Fate>, from: nat, lo: nat)

  function RowsOf(items: seq<Received>): int {
    if items == [] then 0 else RowsOf(items[..|items| - 1]) + items[|items| - 1].packet.RowCount()
  }

  function Marked(fates: seq<Fate>, lo: nat, hi: nat, fate: Fate): (r: seq<Fate>)
    ensures |r| == |fates| && forall i :: 0 <= i < |r| ==> r[i] == if lo <= i < hi then fate else fates[i]
  {
    seq(|fates|, i requires 0 <= i < |fates| => if lo <= i < hi then fate else fates[i])
  }

  function Initial(tables: Tables): Writer {
    Writer([], 0, false, false, Created, Stats(0, 0, 0, 0, 0, 0, 0), tables, [], [], 0, 0)
  }

  /** The oldest packet gives way. */
  function DropOldest(w: Writer): Writer
    requires w.pending != []
  {
    var rows := w.pending[0].packet.RowCount();
    w.(pending := w.pending[1..], pendingRows := w.pendingRows - rows,
       stats := w.stats.(droppedPackets := w.stats.droppedPackets + 1, droppedRows := w.stats.droppedRows + rows),
       fates := Marked(w.fates, w.from, w.from + 1, Dropped), from := w.from + 1)
  }

  /** The loop of `submit`: down to the limit, or to a single packet. */
  function Trimmed(w: Writer, c: Config): Writer
    decreases |w.pending|
  {
    if w.pendingRows > c.maxPendingRows && |w.pending| > 1 then Trimmed(DropOldest(w), c) else w
  }

  function Appended(w: Writer, item: Received): Writer {
    w.(pending := w.pending + [item], pendingRows := w.pendingRows + item.packet.RowCount(),
       submitted := w.submitted + [item], fates := w.fates + [Pending])
  }

  function Submitted(w: Writer, c: Config, item: Received): Writer {
    var t := Trimmed(Appended(w, item), c);
    if t.pendingRows >= c.flushRows then t.(wakeup := true) else t
  }

  function Stopped(w: Writer): Writer {
    w.(stopping := true, wakeup := true)
  }

  /** `flush` up to its await: everything pending becomes the batch. */
  function Taken(w: Writer, final: bool): Writer {
    w.(phase := Writing(w.pending, w.pendingRows, final), pending := [], pendingRows := 0, lo := w.from,
       fates := Marked(w.fates, w.from, |w.fates|, InFlight), from := |w.fates|)
  }

  /** After a flush: the last one ends `run`; otherwise the loop looks at the stop flag. */
  function Continued(w: Writer, final: bool): Writer {
    if final then w.(phase := Returned)
    else if !w.stopping then w.(phase := Waiting)
    else if w.pending == [] then w.(phase := Returned)
    else Taken(w, true)
  }

  /** The wait is over, by the wakeup or the interval. */
  function Woken(w: Writer): Writer {
    var v := w.(wakeup := false);
    if v.pending == [] then Continued(v, false) else Taken(v, false)
  }

  /** The batch is settled: the store committed it, or rolled it back with an exception. The loop has yet to go on. */
  function Settled(w: Writer, committed: bool): Writer
    requires w.phase.Writing?
  {
    var p := w.phase;
    var result := ResultOf(w.tables, p.batch);
    var s := w.stats;
    var fate := if committed then Stored else Failed;
    var v := w.(phase := Created, fates := Marked(w.fates, w.lo, w.lo + |p.batch|, fate));
    if committed then
      v.(tables := WritePackets(w.tables, p.batch),
         stats := s.(committedBatches := s.committedBatches + 1, writtenRows := s.writtenRows + result.rows,
                     duplicateRows := s.duplicateRows + result.duplicateRows))
    else v.(stats := s.(failedBatches := s.failedBatches + 1, failedRows := s.failedRows + p.rows))
  }

  /** The store has finished with the batch. */
  function Completed(w: Writer, committed: bool): Writer
    requires w.phase.Writing?
  {
    Continued(Settled(w, committed), w.phase.final)
  }

  /** Where the loop goes on does not depend on where it stood. */
  lemma ContinuedFrom(w: Writer, p: Phase, final: bool)
    ensures Continued(w.(phase := p), final) == Continued(w, final)
  {}

  datatype Event = Submit(item: Received) | Stop | Begin | Wake | Complete(committed: bool)

  /** One event. One that does not apply where `run` stands changes nothing. */
  function Step(w: Writer, c: Config, e: Event): Writer {
    match e
    case Submit(item) => Submitted(w, c, item)
    case Stop => Stopped(w)
    case Begin => if w.phase.Created? then Continued(w, false) else w
    case Wake => if w.phase.Waiting? then Woken(w) else w
    case Complete(committed) => if w.phase.Writing? then Completed(w, committed) else w
  }

  function RunFrom(w: Writer, c: Config, es: seq<Event>): Writer {
    if es == [] then w else Step(RunFrom(w, c, es[..|es| - 1]), c, es[|es| - 1])
  }

  function Run(tables: Tables, c: Config, es: seq<Event>): Writer {
    RunFrom(Initial(tables), c, es)
  }
}

/** What the writer promises under every interleaving. */
module WriterTheorems {
  import opened Packets
  import opened TelemetryTables
  import opened TelemetryFacts
  import opened Writers

  // ---------------------------------------------------------------- rows by fate

  /** The rows of the packets with one fate. */
  function FateRows(items: seq<Received>, fates: seq<Fate>, fate: Fate): int
    requires |items| == |fates|
  {
    if items == [] then 0
    else
      var k := |items| - 1;
      FateRows(items[..k], fates[..k], fate) + if fates[k] == fate then items[k].packet.RowCount() else 0
  }

  function FateCount(fates: seq<Fate>, fate: Fate): nat {
    if fates == [] then 0
    else FateCount(fates[..|fates| - 1], fate) + if fates[|fates| - 1] == fate then 1 else 0
  }

  /** The packets with one fate, in the order submitted. */
  function Chosen(items: seq<Received>, fates: seq<Fate>, fate: Fate): seq<Received>
    requires |items| == |fates|
  {
    if items == [] then []
    else
      var k := |items| - 1;
      Chosen(items[..k], fates[..k], fate) + if fates[k] == fate then [items[k]] else []
  }

  /** Every packet has one fate, so the rows by fate add up to all rows. */
  lemma {:induction false} FatesPartition(items: seq<Received>, fates: seq<Fate>)
    requires |items| == |fates|
    ensures RowsOf(items) == FateRows(items, fates, Pending) + FateRows(items, fates, InFlight)
      + FateRows(items, fates, Stored) + FateRows(items, fates, Failed) + FateRows(items, fates, Dropped)
  {
    if items != [] {
      var k := |items| - 1;
      FatesPartition(items[..k], fates[..k]);
    }
  }

  lemma {:induction false} RowsConcat(a: seq<Received>, b: seq<Received>)
    ensures RowsOf(a + b) == RowsOf(a) + RowsOf(b)
  {
    if b == [] {
      assert a + b == a;
    } else {
      var k := |b| - 1;
      RowsConcat(a, b[..k]);
      assert (a + b)[..|a| + k] == a + b[..k];
    }
  }

  /** Giving a stretch with one fate another. */
  ghost predicate Turned(fates: seq<Fate>, after: seq<Fate>, lo: nat, hi: nat, old_: Fate, new_: Fate) {
    && lo <= hi <= |fates| == |after|
    && (forall i :: lo <= i < hi ==> fates[i] == old_ && after[i] == new_)
    && (forall i :: 0 <= i < |fates| && !(lo <= i < hi) ==> after[i] == fates[i])
  }

  /** The same without the last packet, which turned or stayed. */
  lemma TurnedFront(fates: seq<Fate>, after: seq<Fate>, lo: nat, hi: nat, old_: Fate, new_: Fate)
    requires Turned(fates, after, lo, hi, old_, new_) && lo < hi
    ensures var k := |fates| - 1;
      && Turned(fates[..k], after[..k], lo, if hi <= k then hi else k, old_, new_)
      && (if hi <= k then after[k] == fates[k] else fates[k] == old_ && after[k] == new_)
  {}

  /** Its rows move from the one fate to the other. */
  lemma {:induction false} TurnedRows(items: seq<Received>, fates: seq<Fate>, after: seq<Fate>,
                                      lo: nat, hi: nat, old_: Fate, new_: Fate, f: Fate)
    requires |items| == |fates| && Turned(fates, after, lo, hi, old_, new_) && old_ != new_
    ensures FateRows(items, after, f) == FateRows(items, fates, f)
      + if f == new_ then RowsOf(items[lo..hi]) else if f == old_ then -RowsOf(items[lo..hi]) else 0
  {
    hide FateRows, RowsOf;
    if lo == hi {
      assert after == fates && items[lo..hi] == [];
      NoRows();
    } else {
      TurnedFront(fates, after, lo, hi, old_, new_);
      RowsLast(items, fates, f);
      RowsLast(items, after, f);
      hide Turned;
      var k := |items| - 1;
      if hi <= k {
        TurnedRows(items[..k], fates[..k], after[..k], lo, hi, old_, new_, f);
        assert items[..k][lo..hi] == items[lo..hi];
      } else {
        TurnedRows(items[..k], fates[..k], after[..k], lo, k, old_, new_, f);
        LastRows(items[lo..hi]);
        assert items[..k][lo..k] == items[lo..hi][..k - lo];
        assert items[lo..hi][k - lo] == items[k];
      }
    }
  }

  lemma NoRows()
    ensures RowsOf([]) == 0
  {}

  lemma LastRows(items: seq<Received>)
    requires items != []
    ensures RowsOf(items) == RowsOf(items[..|items| - 1]) + items[|items| - 1].packet.RowCount()
  {}

  lemma CountLast(fates: seq<Fate>, f: Fate)
    requires fates != []
    ensures FateCount(fates, f) == FateCount(fates[..|fates| - 1], f) + if fates[|fates| - 1] == f then 1 else 0
  {}

  lemma RowsLast(items: seq<Received>, fates: seq<Fate>, f: Fate)
    requires |items| == |fates| && items != []
    ensures var k := |items| - 1;
      FateRows(items, fates, f) == FateRows(items[..k], fates[..k], f) + if fates[k] == f then items[k].packet.RowCount() else 0
  {}

  lemma {:induction false} TurnedCount(fates: seq<Fate>, after: seq<Fate>, lo: nat, hi: nat, old_: Fate, new_: Fate, f: Fate)
    requires Turned(fates, after, lo, hi, old_, new_) && old_ != new_
    ensures FateCount(after, f) == FateCount(fates, f)
      + if f == new_ then hi - lo else if f == old_ then lo - hi else 0
  {
    if lo == hi {
      assert after == fates;
    } else {
      TurnedFront(fates, after, lo, hi, old_, new_);
      hide Turned;
      CountLast(fates, f);
      CountLast(after, f);
      hide FateCount;
      var k := |fates| - 1;
      if hi <= k {
        TurnedCount(fates[..k], after[..k], lo, hi, old_, new_, f);
      } else {
        TurnedCount(fates[..k], after[..k], lo, k, old_, new_, f);
      }
    }
  }

  lemma {:induction false} NoneChosen(items: seq<Received>, fates: seq<Fate>, lo: nat, f: Fate)
    requires |items| == |fates| && lo <= |items| && forall i :: lo <= i < |items| ==> fates[i] != f
    ensures Chosen(items, fates, f) == Chosen(items[..lo], fates[..lo], f)
    ensures FateRows(items, fates, f) == FateRows(items[..lo], fates[..lo], f)
  {
    if lo < |items| {
      var k := |items| - 1;
      NoneChosen(items[..k], fates[..k], lo, f);
      assert items[..k][..lo] == items[..lo] && fates[..k][..lo] == fates[..lo];
    } else {
      assert items[..lo] == items && fates[..lo] == fates;
    }
  }

  lemma {:induction false} AllChosen(items: seq<Received>, fates: seq<Fate>, lo: nat, f: Fate)
    requires |items| == |fates| && lo <= |items| && forall i :: lo <= i < |items| ==> fates[i] == f
    ensures Chosen(items, fates, f) == Chosen(items[..lo], fates[..lo], f) + items[lo..]
  {
    if lo < |items| {
      var k := |items| - 1;
      AllChosen(items[..k], fates[..k], lo, f);
      assert items[..k][..lo] == items[..lo] && fates[..k][..lo] == fates[..lo];
      assert items[lo..] == items[..k][lo..] + [items[k]];
    } else {
      assert items[..lo] == items && fates[..lo] == fates;
    }
  }

  /** A stretch past all others with the fate joins them at the end. */
  lemma TurnedChosen(items: seq<Received>, fates: seq<Fate>, after: seq<Fate>, lo: nat, hi: nat, old_: Fate, new_: Fate)
    requires |items| == |fates| && Turned(fates, after, lo, hi, old_, new_) && old_ != new_
    requires forall i :: hi <= i < |fates| ==> fates[i] != new_
    ensures Chosen(items, after, new_) == Chosen(items, fates, new_) + items[lo..hi]
  {
    NoneChosen(items, after, hi, new_);
    AllChosen(items[..hi], after[..hi], lo, new_);
    NoneChosen(items, fates, lo, new_);
    assert items[..hi][..lo] == items[..lo] && items[..hi][lo..] == items[lo..hi];
    assert after[..hi][..lo] == fates[..lo];
  }

  /** A fate nobody has touched. */
  lemma {:induction false} TurnedOthers(items: seq<Received>, fates: seq<Fate>, after: seq<Fate>,
                                        lo: nat, hi: nat, old_: Fate, new_: Fate, f: Fate)
    requires |items| == |fates| && Turned(fates, after, lo, hi, old_, new_) && f != old_ && f != new_
    ensures Chosen(items, after, f) == Chosen(items, fates, f)
  {
    if items != [] {
      var k := |items| - 1;
      if lo <= k {
        TurnedOthers(items[..k], fates[..k], after[..k], lo, if hi <= k then hi else k, old_, new_, f);
      } else {
        assert after == fates;
      }
    }
  }

  // ---------------------------------------------------------------- the invariant

  /** Every cycle carries as many ranges as its packet announces, as every decoded packet's do. */
  ghost predicate RowsAgree(p: TelemetryPacket) {
    forall i :: 0 <= i < |p.cycles| ==> |p.cycles[i].ranges| == p.anchorN
  }

  /** The queue is the tail of what was submitted, and its rows are counted right. */
  ghost predicate Queued(w: Writer) {
    && |w.fates| == |w.submitted| && w.from <= |w.submitted| && w.pending == w.submitted[w.from..]
    && w.pendingRows == RowsOf(w.pending)
    && (forall i :: 0 <= i < |w.fates| ==> (w.fates[i] == Pending <==> w.from <= i))
  }

  /** The batch in flight is a stretch of what was submitted, after everything stored. */
  ghost predicate Flying(w: Writer) {
    if w.phase.Writing? then
      var p := w.phase;
      var hi := w.lo + |p.batch|;
      && hi <= w.from <= |w.submitted| == |w.fates| && p.batch != []
      && p.batch == w.submitted[w.lo..hi] && p.rows == RowsOf(p.batch)
      && (forall i :: 0 <= i < |w.fates| ==> (w.fates[i] == InFlight <==> w.lo <= i < hi))
      && (forall i :: w.lo <= i < |w.fates| ==> w.fates[i] != Stored)
    else forall i :: 0 <= i < |w.fates| ==> w.fates[i] != InFlight
  }

  /** The counters are the rows and packets by fate. */
  ghost predicate Tallied(w: Writer) {
    && |w.fates| == |w.submitted|
    && w.stats.writtenRows + w.stats.duplicateRows == FateRows(w.submitted, w.fates, Stored)
    && w.stats.failedRows == FateRows(w.submitted, w.fates, Failed)
    && w.stats.droppedRows == FateRows(w.submitted, w.fates, Dropped)
    && w.stats.droppedPackets == FateCount(w.fates, Dropped)
  }

  /** The tables are those that writing the stored packets in the order submitted leaves. */
  ghost predicate InTables(w: Writer, tables: Tables) {
    && |w.fates| == |w.submitted|
    && w.tables == WritePackets(tables, Chosen(w.submitted, w.fates, Stored))
  }

  ghost predicate WithinCap(w: Writer, c: Config) {
    w.pendingRows <= c.maxPendingRows || |w.pending| <= 1
  }

  /** Nobody sleeps through a stop or a full queue. */
  ghost predicate Awake(w: Writer, c: Config) {
    && (w.pendingRows >= c.flushRows > 0 ==> w.wakeup)
    && (w.phase.Waiting? && w.stopping ==> w.wakeup)
    && (w.phase.Returned? || (w.phase.Writing? && w.phase.final) ==> w.stopping)
  }

  ghost predicate Inv(w: Writer, c: Config, tables: Tables) {
    Queued(w) && Flying(w) && Tallied(w) && InTables(w, tables) && WithinCap(w, c) && Awake(w, c)
  }

  lemma InvParts(w: Writer, c: Config, tables: Tables)
    ensures Inv(w, c, tables)
       <==> Queued(w) && Flying(w) && Tallied(w) && InTables(w, tables) && WithinCap(w, c) && Awake(w, c)
  {
    hide Queued, Flying, Tallied, InTables, WithinCap, Awake;
  }

  /** What the counters, the tables and the batch in flight claim, whatever the queue holds. */
  ghost predicate Books(w: Writer, tables: Tables) {
    Queued(w) && Flying(w) && Tallied(w) && InTables(w, tables)
  }

  // ---------------------------------------------------------------- submitting

  lemma AppendedQueued(w: Writer, item: Received)
    requires Queued(w)
    ensures Queued(Appended(w, item))
  {
    RowsConcat(w.pending, [item]);
    assert RowsOf([item]) == item.packet.RowCount() by {
      assert [item][..0] == [];
    }
  }

  lemma AppendedFates(w: Writer, item: Received, f: Fate)
    requires |w.fates| == |w.submitted| && f != Pending
    ensures var u := Appended(w, item);
      && FateRows(u.submitted, u.fates, f) == FateRows(w.submitted, w.fates, f)
      && FateCount(u.fates, f) == FateCount(w.fates, f)
      && Chosen(u.submitted, u.fates, f) == Chosen(w.submitted, w.fates, f)
  {
    var u := Appended(w, item);
    assert u.submitted[..|w.submitted|] == w.submitted && u.fates[..|w.fates|] == w.fates;
  }

  lemma AppendedBooks(w: Writer, item: Received, tables: Tables)
    requires Books(w, tables)
    ensures Books(Appended(w, item), tables)
  {
    AppendedQueued(w, item);
    AppendedFates(w, item, Stored);
    AppendedFates(w, item, Failed);
    AppendedFates(w, item, Dropped);
    AppendedFlying(w, item);
    hide Queued, Flying, FateRows, FateCount, Chosen, RowsOf;
  }

  lemma AppendedFlying(w: Writer, item: Received)
    requires Queued(w) && Flying(w)
    ensures Flying(Appended(w, item))
  {
    hide RowsOf;
    if w.phase.Writing? {
      var p := w.phase;
      assert (w.submitted + [item])[w.lo..w.lo + |p.batch|] == w.submitted[w.lo..w.lo + |p.batch|];
    }
  }

  lemma DroppedTurned(w: Writer)
    requires Queued(w) && w.pending != []
    ensures Turned(w.fates, DropOldest(w).fates, w.from, w.from + 1, Pending, Dropped)
    ensures w.submitted[w.from..w.from + 1] == [w.pending[0]] && RowsOf([w.pending[0]]) == w.pending[0].packet.RowCount()
  {
    assert [w.pending[0]][..0] == [];
  }

  lemma DroppedQueued(w: Writer)
    requires Queued(w) && w.pending != []
    ensures Queued(DropOldest(w))
  {
    DroppedTurned(w);
    RowsConcat([w.pending[0]], w.pending[1..]);
    assert [w.pending[0]] + w.pending[1..] == w.pending;
    hide RowsOf;
  }

  lemma DroppedFlying(w: Writer)
    requires Queued(w) && Flying(w) && w.pending != []
    ensures Flying(DropOldest(w))
  {
    hide RowsOf;
  }

  lemma DroppedTallied(w: Writer, tables: Tables)
    requires Queued(w) && Tallied(w) && InTables(w, tables) && w.pending != []
    ensures Tallied(DropOldest(w)) && InTables(DropOldest(w), tables)
  {
    var u := DropOldest(w);
    DroppedTurned(w);
    TurnedRows(w.submitted, w.fates, u.fates, w.from, w.from + 1, Pending, Dropped, Stored);
    TurnedRows(w.submitted, w.fates, u.fates, w.from, w.from + 1, Pending, Dropped, Failed);
    TurnedRows(w.submitted, w.fates, u.fates, w.from, w.from + 1, Pending, Dropped, Dropped);
    TurnedCount(w.fates, u.fates, w.from, w.from + 1, Pending, Dropped, Dropped);
    TurnedOthers(w.submitted, w.fates, u.fates, w.from, w.from + 1, Pending, Dropped, Stored);
    hide Turned, FateRows, FateCount, Chosen, RowsOf, Queued;
  }

  lemma DroppedBooks(w: Writer, tables: Tables)
    requires Books(w, tables) && w.pending != []
    ensures Books(DropOldest(w), tables)
  {
    DroppedQueued(w);
    DroppedFlying(w);
    DroppedTallied(w, tables);
    hide Queued, Flying, Tallied, InTables;
  }

  /** Dropping stops within the limit or at a single packet, and touches nothing but the queue. */
  lemma {:induction false} TrimmedBooks(w: Writer, c: Config, tables: Tables)
    requires Books(w, tables)
    ensures var u := Trimmed(w, c);
      && Books(u, tables) && WithinCap(u, c)
      && u.phase == w.phase && u.stopping == w.stopping && u.wakeup == w.wakeup && u.submitted == w.submitted
    decreases |w.pending|
  {
    hide Books;
    if w.pendingRows > c.maxPendingRows && |w.pending| > 1 {
      DroppedBooks(w, tables);
      TrimmedBooks(DropOldest(w), c, tables);
    }
  }

  lemma BooksSame(w: Writer, u: Writer, tables: Tables)
    requires Books(w, tables)
    requires u == w.(wakeup := u.wakeup, stopping := u.stopping)
    ensures Books(u, tables)
  {
    hide FateRows, FateCount, Chosen, RowsOf;
  }

  lemma SubmittedBooks(w: Writer, c: Config, item: Received, tables: Tables)
    requires Books(w, tables) && Awake(w, c)
    ensures var u := Submitted(w, c, item); Books(u, tables) && WithinCap(u, c) && Awake(u, c)
  {
    hide Books;
    AppendedBooks(w, item, tables);
    TrimmedBooks(Appended(w, item), c, tables);
    BooksSame(Trimmed(Appended(w, item), c), Submitted(w, c, item), tables);
  }

  // ---------------------------------------------------------------- flushing

  lemma TakenTurned(w: Writer, final: bool)
    requires Queued(w)
    ensures Turned(w.fates, Taken(w, final).fates, w.from, |w.fates|, Pending, InFlight)
  {
    hide RowsOf;
  }

  lemma TakenTallied(w: Writer, final: bool, tables: Tables)
    requires Queued(w) && Tallied(w) && InTables(w, tables)
    ensures Tallied(Taken(w, final)) && InTables(Taken(w, final), tables)
  {
    var u, n := Taken(w, final), |w.fates|;
    TakenTurned(w, final);
    TurnedRows(w.submitted, w.fates, u.fates, w.from, n, Pending, InFlight, Stored);
    TurnedRows(w.submitted, w.fates, u.fates, w.from, n, Pending, InFlight, Failed);
    TurnedRows(w.submitted, w.fates, u.fates, w.from, n, Pending, InFlight, Dropped);
    TurnedCount(w.fates, u.fates, w.from, n, Pending, InFlight, Dropped);
    TurnedOthers(w.submitted, w.fates, u.fates, w.from, n, Pending, InFlight, Stored);
    hide Turned, FateRows, FateCount, Chosen, RowsOf, Queued;
  }

  lemma TakenFlying(w: Writer, final: bool)
    requires Queued(w) && Flying(w) && !w.phase.Writing? && w.pending != []
    ensures Queued(Taken(w, final)) && Flying(Taken(w, final))
  {
    assert RowsOf([]) == 0;
    hide RowsOf;
  }

  lemma TakenBooks(w: Writer, final: bool, tables: Tables)
    requires Books(w, tables) && !w.phase.Writing? && w.pending != []
    ensures Books(Taken(w, final), tables)
  {
    TakenFlying(w, final);
    TakenTallied(w, final, tables);
    hide Queued, Flying, Tallied, InTables;
  }

  lemma MovedBooks(w: Writer, phase: Phase, tables: Tables)
    requires Books(w, tables) && !w.phase.Writing? && !phase.Writing?
    ensures Books(w.(phase := phase), tables)
  {
    hide FateRows, FateCount, Chosen, RowsOf;
  }

  lemma PendingNone(w: Writer)
    requires Queued(w)
    ensures w.pending == [] ==> w.pendingRows == 0
  {}

  /** The loop goes on: with a batch, waiting, or ending with nothing left over. */
  lemma ContinuedBooks(w: Writer, c: Config, final: bool, tables: Tables)
    requires Books(w, tables) && !w.phase.Writing? && WithinCap(w, c)
    requires (w.pendingRows >= c.flushRows > 0 ==> w.wakeup) && (final ==> w.stopping)
    ensures var u := Continued(w, final); Books(u, tables) && WithinCap(u, c) && Awake(u, c)
  {
    hide Books;
    if !final && w.stopping && w.pending != [] {
      TakenBooks(w, true, tables);
    } else {
      MovedBooks(w, Waiting, tables);
      MovedBooks(w, Returned, tables);
    }
  }

  lemma WokenBooks(w: Writer, c: Config, tables: Tables)
    requires Books(w, tables) && w.phase.Waiting? && WithinCap(w, c)
    ensures var u := Woken(w); Books(u, tables) && WithinCap(u, c) && Awake(u, c)
  {
    PendingNone(w);
    hide Books;
    var v := w.(wakeup := false);
    BooksSame(w, v, tables);
    if v.pending == [] {
      ContinuedBooks(v, c, false, tables);
    } else {
      TakenBooks(v, false, tables);
    }
  }

  // ---------------------------------------------------------------- the store answers

  lemma SettledTurned(w: Writer, committed: bool)
    requires Queued(w) && Flying(w) && w.phase.Writing?
    ensures var p := w.phase;
      && Turned(w.fates, Settled(w, committed).fates, w.lo, w.lo + |p.batch|, InFlight, if committed then Stored else Failed)
      && w.submitted[w.lo..w.lo + |p.batch|] == p.batch
  {
    hide RowsOf;
  }

  lemma SettledFlying(w: Writer, committed: bool)
    requires Queued(w) && Flying(w) && w.phase.Writing?
    ensures Queued(Settled(w, committed)) && Flying(Settled(w, committed))
  {
    SettledTurned(w, committed);
    hide RowsOf, ResultOf, WritePackets;
  }

  lemma {:induction false} AttemptedRows(s: SessionTable, items: seq<Received>)
    requires (forall i :: 0 <= i < |items| ==> items[i].Key() in s.rows)
    requires forall i :: 0 <= i < |items| ==> RowsAgree(items[i].packet)
    ensures Attempted(AllWrites(s, items)) == RowsOf(items)
  {
    if items != [] {
      var front, last := items[..|items| - 1], items[|items| - 1];
      assert forall i :: 0 <= i < |front| ==> front[i] == items[i];
      AttemptedRows(s, front);
      var ws := WritesOf(s.rows[last.Key()].id, last.packet.cycles, last.recvAt);
      AttemptedConcat(AllWrites(s, front), ws);
      assert RowsAgree(last.packet);
      AttemptedEach(ws, last.packet.anchorN);
    }
  }

  lemma {:induction false} AttemptedEach(ws: seq<Write>, anchorN: int)
    requires forall i :: 0 <= i < |ws| ==> |ws[i].cycle.ranges| == anchorN
    ensures Attempted(ws) == |ws| * (1 + anchorN)
  {
    if ws != [] {
      AttemptedEach(ws[..|ws| - 1], anchorN);
    }
  }

  /** Written and duplicate rows of a batch are all its rows. */
  lemma ResultRows(t: Tables, items: seq<Received>)
    requires forall i :: 0 <= i < |items| ==> RowsAgree(items[i].packet)
    ensures ResultOf(t, items).rows + ResultOf(t, items).duplicateRows == RowsOf(items)
  {
    AttemptedRows(Touched(t.sessions, items), items);
  }

  lemma SettledTallied(w: Writer, committed: bool)
    requires Queued(w) && Flying(w) && Tallied(w) && w.phase.Writing?
    requires forall i :: 0 <= i < |w.submitted| ==> RowsAgree(w.submitted[i].packet)
    ensures Tallied(Settled(w, committed))
  {
    hide Turned, FateRows, FateCount, RowsOf, Queued, Flying, Settled;
    SettledTurned(w, committed);
    SettledRows(w, committed);
    var u, p := Settled(w, committed), w.phase;
    if committed {
      SettledFates(w, u.fates, w.lo, w.lo + |p.batch|, Stored);
    } else {
      SettledFates(w, u.fates, w.lo, w.lo + |p.batch|, Failed);
    }
  }

  lemma SettledFates(w: Writer, after: seq<Fate>, lo: nat, hi: nat, fate: Fate)
    requires |w.submitted| == |w.fates| && Turned(w.fates, after, lo, hi, InFlight, fate) && fate.Stored? != fate.Failed?
    ensures |after| == |w.fates| && hi <= |w.fates|
    ensures var moved, items := RowsOf(w.submitted[lo..hi]), w.submitted;
      && FateRows(items, after, Stored) == FateRows(items, w.fates, Stored) + (if fate.Stored? then moved else 0)
      && FateRows(items, after, Failed) == FateRows(items, w.fates, Failed) + (if fate.Failed? then moved else 0)
      && FateRows(items, after, Dropped) == FateRows(items, w.fates, Dropped)
      && FateCount(after, Dropped) == FateCount(w.fates, Dropped)
  {
    TurnedRows(w.submitted, w.fates, after, lo, hi, InFlight, fate, Stored);
    TurnedRows(w.submitted, w.fates, after, lo, hi, InFlight, fate, Failed);
    TurnedRows(w.submitted, w.fates, after, lo, hi, InFlight, fate, Dropped);
    TurnedCount(w.fates, after, lo, hi, InFlight, fate, Dropped);
    hide FateRows, FateCount, RowsOf;
  }

  /** What settling adds to the counters. */
  lemma SettledRows(w: Writer, committed: bool)
    requires Queued(w) && Flying(w) && w.phase.Writing?
    requires forall i :: 0 <= i < |w.submitted| ==> RowsAgree(w.submitted[i].packet)
    ensures var u, rows := Settled(w, committed).stats, RowsOf(w.phase.batch);
      && u.writtenRows + u.duplicateRows == w.stats.writtenRows + w.stats.duplicateRows + (if committed then rows else 0)
      && u.failedRows == w.stats.failedRows + (if committed then 0 else rows)
      && u.droppedRows == w.stats.droppedRows && u.droppedPackets == w.stats.droppedPackets
    ensures Settled(w, committed).submitted == w.submitted
  {
    BatchAgrees(w);
    hide RowsOf, Queued, Flying, ResultOf, WritePackets, RowsAgree, Marked;
    ResultRows(w.tables, w.phase.batch);
  }

  lemma BatchAgrees(w: Writer)
    requires Flying(w) && w.phase.Writing? && forall i :: 0 <= i < |w.submitted| ==> RowsAgree(w.submitted[i].packet)
    ensures forall i :: 0 <= i < |w.phase.batch| ==> RowsAgree(w.phase.batch[i].packet)
  {
    hide RowsAgree, RowsOf;
    forall i | 0 <= i < |w.phase.batch| ensures RowsAgree(w.phase.batch[i].packet) {
      assert w.phase.batch[i] == w.submitted[w.lo + i];
    }
  }

  lemma SettledInTables(w: Writer, committed: bool, tables: Tables)
    requires Queued(w) && Flying(w) && InTables(w, tables) && w.phase.Writing?
    ensures InTables(Settled(w, committed), tables)
  {
    hide FateRows, FateCount, RowsOf, ResultOf, WritePackets;
    var u, p := Settled(w, committed), w.phase;
    var hi := w.lo + |p.batch|;
    SettledTurned(w, committed);
    if committed {
      TurnedChosen(w.submitted, w.fates, u.fates, w.lo, hi, InFlight, Stored);
      BatchingIsInvisible(tables, Chosen(w.submitted, w.fates, Stored), p.batch);
    } else {
      TurnedOthers(w.submitted, w.fates, u.fates, w.lo, hi, InFlight, Failed, Stored);
    }
  }

  lemma SettledBooks(w: Writer, committed: bool, tables: Tables)
    requires Books(w, tables) && w.phase.Writing?
    requires forall i :: 0 <= i < |w.submitted| ==> RowsAgree(w.submitted[i].packet)
    ensures Books(Settled(w, committed), tables)
  {
    SettledFlying(w, committed);
    SettledTallied(w, committed);
    SettledInTables(w, committed, tables);
    hide Queued, Flying, Tallied, InTables;
  }

  lemma CompletedBooks(w: Writer, c: Config, committed: bool, tables: Tables)
    requires Books(w, tables) && w.phase.Writing? && WithinCap(w, c) && Awake(w, c)
    requires forall i :: 0 <= i < |w.submitted| ==> RowsAgree(w.submitted[i].packet)
    ensures var u := Completed(w, committed); Books(u, tables) && WithinCap(u, c) && Awake(u, c)
  {
    hide Books, Marked, ResultOf, WritePackets;
    SettledBooks(w, committed, tables);
    ContinuedBooks(Settled(w, committed), c, w.phase.final, tables);
  }
}
