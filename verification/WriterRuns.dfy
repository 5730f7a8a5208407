/** The batching writer over whole runs, and as an object (ingest/writer.py). */
module WriterRuns {
  import opened Packets
  import opened TelemetryTables
  import opened Writers
  import opened WriterTheorems
  import Codec

  /** What a run submits, in order. */
  function ItemsOf(es: seq<Event>): seq<Received> {
    if es == [] then []
    else ItemsOf(es[..|es| - 1]) + if es[|es| - 1].Submit? then [es[|es| - 1].item] else []
  }

  ghost predicate AllAgree(items: seq<Received>) {
    forall i :: 0 <= i < |items| ==> RowsAgree(items[i].packet)
  }

  /** Whatever the decoder accepts carries the rows it announces. */
  lemma DecodedRowsAgree(p: TelemetryPacket)
    requires Codec.Legal(p)
    ensures RowsAgree(p)
  {
    forall i | 0 <= i < |p.cycles| ensures |p.cycles[i].ranges| == p.anchorN {
      assert Codec.LegalCycle(p.cycles[i], p.seqNo, p.tTagMs, p.anchorN, i);
    }
  }

  lemma {:induction false} TrimmedKeeps(w: Writer, c: Config)
    ensures var u := Trimmed(w, c); u.submitted == w.submitted && u.stopping == w.stopping && u.phase == w.phase
    decreases |w.pending|
  {
    if w.pendingRows > c.maxPendingRows && |w.pending| > 1 {
      TrimmedKeeps(DropOldest(w), c);
    }
  }

  lemma StepSubmits(w: Writer, c: Config, e: Event)
    ensures Step(w, c, e).submitted == w.submitted + if e.Submit? then [e.item] else []
  {
    if e.Submit? {
      TrimmedKeeps(Appended(w, e.item), c);
    }
    hide Marked, ResultOf, WritePackets, Trimmed;
  }

  /** Every step keeps the invariant. */
  lemma StepKeepsInv(w: Writer, c: Config, e: Event, tables: Tables)
    requires Inv(w, c, tables) && AllAgree(w.submitted)
    ensures Inv(Step(w, c, e), c, tables)
  {
    hide Inv, WithinCap, Awake, Queued, Flying, Tallied, InTables, Submitted, Stopped, Continued, Woken, Completed;
    InvParts(w, c, tables);
    BooksParts(w, tables);
    var u := Step(w, c, e);
    match e {
      case Submit(item) =>
        SubmittedBooks(w, c, item, tables);
      case Stop =>
        StoppedBooks(w, c, tables);
      case Begin =>
        if w.phase.Created? {
          BegunAwake(w, c);
          ContinuedBooks(w, c, false, tables);
        }
      case Wake =>
        if w.phase.Waiting? {
          WokenBooks(w, c, tables);
        }
      case Complete(committed) =>
        if w.phase.Writing? {
          CompletedBooks(w, c, committed, tables);
        }
    }
    BooksParts(u, tables);
    InvParts(u, c, tables);
  }

  lemma BooksParts(w: Writer, tables: Tables)
    ensures Books(w, tables) <==> Queued(w) && Flying(w) && Tallied(w) && InTables(w, tables)
  {
    hide Queued, Flying, Tallied, InTables;
  }

  lemma StoppedBooks(w: Writer, c: Config, tables: Tables)
    requires Books(w, tables) && WithinCap(w, c) && Awake(w, c)
    ensures var u := Stopped(w); Books(u, tables) && WithinCap(u, c) && Awake(u, c)
  {
    hide Books;
    BooksSame(w, Stopped(w), tables);
  }

  lemma BegunAwake(w: Writer, c: Config)
    requires Awake(w, c)
    ensures w.pendingRows >= c.flushRows > 0 ==> w.wakeup
  {}

  lemma InitialInv(tables: Tables, c: Config)
    ensures Inv(Initial(tables), c, tables)
  {
    WriteNothing(tables);
    hide WritePackets;
  }

  lemma WriteNothing(tables: Tables)
    ensures WritePackets(tables, []) == tables
  {}

  lemma {:induction false} RunInv(tables: Tables, c: Config, es: seq<Event>)
    requires AllAgree(ItemsOf(es))
    ensures Run(tables, c, es).submitted == ItemsOf(es)
    ensures Inv(Run(tables, c, es), c, tables)
  {
    hide Inv, Step, RowsAgree;
    if es == [] {
      InitialInv(tables, c);
    } else {
      var front, e := es[..|es| - 1], es[|es| - 1];
      forall i | 0 <= i < |ItemsOf(front)| ensures RowsAgree(ItemsOf(front)[i].packet) {
        assert ItemsOf(es)[i] == ItemsOf(front)[i];
      }
      RunInv(tables, c, front);
      StepKeepsInv(Run(tables, c, front), c, e, tables);
      StepSubmits(Run(tables, c, front), c, e);
    }
  }

  function FlyingRows(w: Writer): int {
    if w.phase.Writing? then w.phase.rows else 0
  }

  /** Under every interleaving no row is lost track of. */
  lemma EveryRowIsCounted(tables: Tables, c: Config, es: seq<Event>)
    requires AllAgree(ItemsOf(es))
    ensures var w := Run(tables, c, es);
      RowsOf(ItemsOf(es)) == w.stats.writtenRows + w.stats.duplicateRows + w.stats.failedRows + w.stats.droppedRows
                             + w.pendingRows + FlyingRows(w)
  {
    RunInv(tables, c, es);
    var w := Run(tables, c, es);
    hide Run, Inv, Step;
    InvParts(w, c, tables);
    FatesPartition(w.submitted, w.fates);
    PendingRowsByFate(w);
    FlyingRowsByFate(w);
    hide Queued, Flying, InTables, FateRows, RowsOf;
  }

  lemma PendingRowsByFate(w: Writer)
    requires Queued(w)
    ensures FateRows(w.submitted, w.fates, Pending) == w.pendingRows
  {
    StretchRows(w.submitted, w.fates, w.from, |w.fates|, Pending);
    assert w.submitted[w.from..|w.fates|] == w.submitted[w.from..];
    hide FateRows, RowsOf;
  }

  lemma FlyingRowsByFate(w: Writer)
    requires Queued(w) && Flying(w)
    ensures FateRows(w.submitted, w.fates, InFlight) == FlyingRows(w)
  {
    hide FateRows, RowsOf;
    if w.phase.Writing? {
      StretchRows(w.submitted, w.fates, w.lo, w.lo + |w.phase.batch|, InFlight);
    } else {
      StretchRows(w.submitted, w.fates, 0, 0, InFlight);
      NoRows();
      assert w.submitted[0..0] == [];
    }
  }

  /** The packets of one fate, when they are exactly one stretch. */
  lemma {:induction false} StretchRows(items: seq<Received>, fates: seq<Fate>, lo: nat, hi: nat, f: Fate)
    requires |items| == |fates| && lo <= hi <= |items|
    requires forall i :: 0 <= i < |fates| ==> (fates[i] == f <==> lo <= i < hi)
    ensures FateRows(items, fates, f) == RowsOf(items[lo..hi])
  {
    if items == [] {
      NoRows();
      assert items[lo..hi] == [];
    } else {
      var k := |items| - 1;
      FateRowsLast(items, fates, f);
      hide FateRows, RowsOf;
      var l, r := if lo > k then k else lo, if hi > k then k else hi;
      StretchRows(items[..k], fates[..k], l, r, f);
      FrontSlice(items, k, l, r);
      if r < hi && lo < hi {
        SliceSnoc(items, lo, hi);
        RowsSnoc(items[l..r], items[k]);
      } else if r < hi {
        assert items[lo..hi] == items[l..r] == [];
      }
    }
  }

  lemma FrontSlice(items: seq<Received>, k: nat, l: nat, r: nat)
    requires l <= r <= k <= |items|
    ensures items[..k][l..r] == items[l..r]
  {
    forall i | 0 <= i < r - l ensures items[..k][l..r][i] == items[l..r][i] {}
  }

  lemma SliceSnoc(items: seq<Received>, lo: nat, hi: nat)
    requires lo < hi <= |items|
    ensures items[lo..hi] == items[lo..hi - 1] + [items[hi - 1]]
  {}

  lemma FateRowsLast(items: seq<Received>, fates: seq<Fate>, f: Fate)
    requires |items| == |fates| && items != []
    ensures var k := |items| - 1;
      FateRows(items, fates, f) == FateRows(items[..k], fates[..k], f) + if fates[k] == f then items[k].packet.RowCount() else 0
  {}

  lemma RowsSnoc(items: seq<Received>, last: Received)
    ensures RowsOf(items + [last]) == RowsOf(items) + last.packet.RowCount()
  {
    assert (items + [last])[..|items|] == items;
  }

  /**
   * Under every interleaving the tables hold exactly the packets stored, written in the order they were submitted, the
   * queue is the newest of them, and it stays within the limit or is a single packet.
   */
  lemma StoredInOrder(tables: Tables, c: Config, es: seq<Event>)
    requires AllAgree(ItemsOf(es))
    ensures var w, items := Run(tables, c, es), ItemsOf(es);
      && |w.fates| == |items| && w.tables == WritePackets(tables, Chosen(items, w.fates, Stored))
      && w.from <= |items| && w.pending == items[w.from..]
      && (w.phase.Writing? ==>
            w.lo + |w.phase.batch| <= w.from && w.phase.batch == items[w.lo..w.lo + |w.phase.batch|])
      && (w.pendingRows <= c.maxPendingRows || |w.pending| <= 1)
  {
    RunInv(tables, c, es);
    var w := Run(tables, c, es);
    hide Run, Inv, Step;
    InvParts(w, c, tables);
    hide Tallied, WritePackets;
  }

  /** While `run` waits, a stop or a full queue has set the wakeup. */
  lemma NoLostWakeup(tables: Tables, c: Config, es: seq<Event>)
    requires AllAgree(ItemsOf(es))
    ensures var w := Run(tables, c, es);
      w.phase.Waiting? && (w.stopping || w.pendingRows >= c.flushRows > 0) ==> w.wakeup
  {
    RunInv(tables, c, es);
    var w := Run(tables, c, es);
    hide Run, Inv, Step;
    InvParts(w, c, tables);
  }

  /** A wait that ends with something pending starts writing all of it, and a commit leaves all of it in the tables. */
  lemma WakeWritesAll(tables: Tables, c: Config, es: seq<Event>)
    requires Run(tables, c, es).phase.Waiting? && Run(tables, c, es).pending != []
    ensures var w, woken := Run(tables, c, es), Run(tables, c, es + [Event.Wake]);
      && woken.phase.Writing? && woken.phase.batch == w.pending && !woken.phase.final
      && woken.pending == [] && woken.pendingRows == 0 && woken.tables == w.tables
    ensures var w, done := Run(tables, c, es), Run(tables, c, es + [Event.Wake] + [Event.Complete(true)]);
      done.tables == WritePackets(w.tables, w.pending)
      && done.phase == if w.stopping then Returned else Waiting
  {
    RunConcat(Initial(tables), c, es, [Event.Wake]);
    RunOne(Run(tables, c, es), c, Event.Wake);
    RunConcat(Initial(tables), c, es + [Event.Wake], [Event.Complete(true)]);
    RunOne(Run(tables, c, es + [Event.Wake]), c, Event.Complete(true));
    hide RunFrom, Marked, ResultOf, WritePackets;
  }

  lemma {:induction false} TrimmedFewest(w: Writer, c: Config)
    requires w.pendingRows == RowsOf(w.pending) && w.pending != []
    ensures var u := Trimmed(w, c);
      var n := |w.pending| - |u.pending|;
      && 0 <= n < |w.pending| && u.pending == w.pending[n..] && u.pendingRows == RowsOf(w.pending[n..])
      && (n == |w.pending| - 1 || RowsOf(w.pending[n..]) <= c.maxPendingRows)
      && (forall k :: 0 <= k < n ==> RowsOf(w.pending[k..]) > c.maxPendingRows)
      && u.stats.droppedPackets == w.stats.droppedPackets + n && u.wakeup == w.wakeup
    decreases |w.pending|
  {
    hide Marked, RowsOf;
    assert w.pending[0..] == w.pending;
    if w.pendingRows > c.maxPendingRows && |w.pending| > 1 {
      var v := DropOldest(w);
      RowsOfOne(w.pending[0]);
      RowsConcat([w.pending[0]], v.pending);
      assert w.pending == [w.pending[0]] + v.pending;
      TrimmedFewest(v, c);
      var n := |v.pending| - |Trimmed(v, c).pending|;
      assert v.pending[n..] == w.pending[n + 1..];
      forall k | 0 <= k < n + 1 ensures RowsOf(w.pending[k..]) > c.maxPendingRows {
        if k > 0 {
          assert v.pending[k - 1..] == w.pending[k..];
        }
      }
    }
  }

  lemma RowsOfOne(item: Received)
    ensures RowsOf([item]) == item.packet.RowCount()
  {
    RowsSnoc([], item);
    NoRows();
  }

  /**
   * A packet submitted in any run joins the queue behind the others; as few of the oldest go as the limit asks for, and
   * the wakeup is set exactly when it was or enough rows are left.
   */
  lemma SubmitDropsFewest(tables: Tables, c: Config, es: seq<Event>, item: Received)
    requires AllAgree(ItemsOf(es))
    ensures var w, u := Run(tables, c, es), Run(tables, c, es + [Submit(item)]);
      var all := w.pending + [item];
      var n := |all| - |u.pending|;
      && 0 <= n < |all| && u.pending == all[n..] && u.stats.droppedPackets == w.stats.droppedPackets + n
      && (n == |all| - 1 || RowsOf(all[n..]) <= c.maxPendingRows)
      && (forall k :: 0 <= k < n ==> RowsOf(all[k..]) > c.maxPendingRows)
      && (u.wakeup <==> w.wakeup || RowsOf(u.pending) >= c.flushRows)
  {
    RunInv(tables, c, es);
    RunConcat(Initial(tables), c, es, [Submit(item)]);
    var w := Run(tables, c, es);
    RunOne(w, c, Submit(item));
    hide Run, RunFrom, Inv, Trimmed, RowsOf;
    InvParts(w, c, tables);
    RowsSnoc(w.pending, item);
    TrimmedFewest(Appended(w, item), c);
  }

  // ---------------------------------------------------------------- stopping

  /** An event that moves `run` on. */
  predicate Advances(w: Writer, e: Event) {
    (e.Begin? && w.phase.Created?) || (e.Wake? && w.phase.Waiting?) || (e.Complete? && w.phase.Writing?)
  }

  /** How often `run` still has to move on before it returns, once it has been asked to stop. */
  function Left(w: Writer): nat {
    match w.phase
    case Returned => 0
    case Writing(_, _, final) => if final || w.pending == [] then 1 else 2
    case _ => if w.pending == [] then 1 else 2
  }

  /** Asked to stop, with nothing behind the last flush. */
  ghost predicate Closing(w: Writer) {
    w.stopping && (w.phase.Returned? || (w.phase.Writing? && w.phase.final) ==> w.pending == [])
  }

  lemma ClosingStep(w: Writer, c: Config, e: Event)
    requires Closing(w) && !e.Submit?
    ensures Closing(Step(w, c, e))
    ensures Left(Step(w, c, e)) == Left(w) - if Advances(w, e) then 1 else 0
  {
    hide Marked, ResultOf, WritePackets;
  }

  /** How many events of a continuation move `run` on. */
  function Advanced(w: Writer, c: Config, es: seq<Event>): nat {
    if es == [] then 0
    else Advanced(w, c, es[..|es| - 1]) + if Advances(RunFrom(w, c, es[..|es| - 1]), es[|es| - 1]) then 1 else 0
  }

  lemma {:induction false} ClosingRun(w: Writer, c: Config, es: seq<Event>)
    requires Closing(w) && forall i :: 0 <= i < |es| ==> !es[i].Submit?
    ensures Closing(RunFrom(w, c, es)) && Left(RunFrom(w, c, es)) == Left(w) - Advanced(w, c, es)
  {
    if es != [] {
      ClosingRun(w, c, es[..|es| - 1]);
      ClosingStep(RunFrom(w, c, es[..|es| - 1]), c, es[|es| - 1]);
      hide Step, Closing, Left, Advances;
    }
  }

  lemma {:induction false} RunConcat(w: Writer, c: Config, a: seq<Event>, b: seq<Event>)
    ensures RunFrom(w, c, a + b) == RunFrom(RunFrom(w, c, a), c, b)
  {
    hide Step;
    if b == [] {
      assert a + b == a;
    } else {
      RunConcat(w, c, a, b[..|b| - 1]);
      assert (a + b)[..|a + b| - 1] == a + b[..|b| - 1];
    }
  }

  lemma RunOne(w: Writer, c: Config, e: Event)
    ensures RunFrom(w, c, [e]) == Step(w, c, e)
  {
    assert [e][..0] == [];
  }

  lemma StopCloses(w: Writer, c: Config, tables: Tables)
    requires Inv(w, c, tables) && !w.stopping
    ensures Closing(Stopped(w)) && Left(Stopped(w)) <= 2
  {
    InvParts(w, c, tables);
    hide Inv, Queued, Flying, Tallied, InTables, WithinCap;
  }

  /**
   * From the first `request_stop` on, with nothing submitted any more, `run` returns after at most two more moves, as
   * soon as it has made them, and then nothing is pending or in flight: every row has been written, failed or dropped.
   */
  lemma StopDrains(tables: Tables, c: Config, before: seq<Event>, after: seq<Event>)
    requires AllAgree(ItemsOf(before)) && AllAgree(ItemsOf(before + [Stop] + after))
    requires !Run(tables, c, before).stopping && forall i :: 0 <= i < |after| ==> !after[i].Submit?
    ensures var stopped, w := Run(tables, c, before + [Stop]), Run(tables, c, before + [Stop] + after);
      && Left(stopped) <= 2 && Left(w) == Left(stopped) - Advanced(stopped, c, after)
      && (w.phase.Returned? <==> Advanced(stopped, c, after) == Left(stopped))
      && (w.phase.Returned? ==> w.pending == [])
      && (w.phase.Returned? ==>
            RowsOf(ItemsOf(before + [Stop] + after))
            == w.stats.writtenRows + w.stats.duplicateRows + w.stats.failedRows + w.stats.droppedRows)
  {
    RunInv(tables, c, before);
    StopCloses(Run(tables, c, before), c, tables);
    RunConcat(Initial(tables), c, before, [Stop]);
    RunOne(Run(tables, c, before), c, Stop);
    RunConcat(Initial(tables), c, before + [Stop], after);
    var stopped, w := Run(tables, c, before + [Stop]), Run(tables, c, before + [Stop] + after);
    assert stopped == Stopped(Run(tables, c, before));
    ClosingRun(stopped, c, after);
    EveryRowIsCounted(tables, c, before + [Stop] + after);
    RunInv(tables, c, before + [Stop] + after);
    LeftNothing(w, c, tables);
    hide Run, RunFrom, Step, Closing, Left, Inv, AllAgree, ItemsOf, RowsOf, Advanced;
  }

  lemma LeftNothing(w: Writer, c: Config, tables: Tables)
    requires Closing(w) && Inv(w, c, tables)
    ensures w.phase.Returned? <==> Left(w) == 0
    ensures w.phase.Returned? ==> w.pending == [] && w.pendingRows == 0 && FlyingRows(w) == 0
  {
    InvParts(w, c, tables);
    PendingNone(w);
    hide Inv, Queued, Flying, Tallied, InTables, WithinCap;
  }
}

module TelemetryWriters {
  import opened TelemetryTables
  import opened TelemetryStores
  import opened Writers

  /** `TelemetryWriter`, with one method for every stretch of `run` between two awaits. */
  class TelemetryWriter {
    const store: TelemetryStore
    const flushRows: int
    const maxPendingRows: int
    var pending: seq<Received>
    var pendingRows: int
    var wakeup: bool
    var stopping: bool
    var phase: Phase
    var stats: Stats
    ghost var submitted: seq<Received>
    ghost var fates: seq<Fate>
    ghost var from: nat
    ghost var lo: nat

    ghost function State(): Writer
      reads this, store
    {
      Writer(pending, pendingRows, wakeup, stopping, phase, stats, store.State(), submitted, fates, from, lo)
    }

    ghost function Limits(): Config {
      Config(flushRows, maxPendingRows)
    }

    constructor (store_: TelemetryStore, flushRows_: int, maxPendingRows_: int)
      ensures store == store_ && Limits() == Config(flushRows_, maxPendingRows_)
      ensures State() == Initial(old(store_.State()))
    {
      store, flushRows, maxPendingRows := store_, flushRows_, maxPendingRows_;
      pending, pendingRows, wakeup, stopping, phase := [], 0, false, false, Created;
      stats := Stats(0, 0, 0, 0, 0, 0, 0);
      submitted, fates, from, lo := [], [], 0, 0;
    }

    method DropFirst()
      requires pending != []
      modifies this
      ensures State() == DropOldest(old(State())) && pending == old(pending)[1..]
    {
      hide Marked, TelemetryStore.State;
      var dropped := pending[0];
      pending := pending[1..];
      pendingRows := pendingRows - dropped.packet.RowCount();
      stats := stats.(droppedPackets := stats.droppedPackets + 1, droppedRows := stats.droppedRows + dropped.packet.RowCount());
      fates, from := Marked(fates, from, from + 1, Dropped), from + 1;
    }

    /** Queues a packet, dropping the oldest while there are too many rows. */
    method Submit(item: Received)
      modifies this
      ensures State() == Submitted(old(State()), Limits(), item)
    {
      hide DropOldest, TelemetryStore.State;
      pending := pending + [item];
      pendingRows := pendingRows + item.packet.RowCount();
      submitted, fates := submitted + [item], fates + [Pending];
      ghost var start := State();
      assert start == Appended(old(State()), item);
      while pendingRows > maxPendingRows && |pending| > 1
        invariant Trimmed(State(), Limits()) == Trimmed(start, Limits())
        decreases |pending|
      {
        DropFirst();
      }
      if pendingRows >= flushRows {
        wakeup := true;
      }
    }

    method RequestStop()
      modifies this
      ensures State() == Stopped(old(State()))
    {
      stopping := true;
      wakeup := true;
    }

    /** `flush` up to the await of the store, if there is anything to write. */
    method BeginFlush(final: bool) returns (writing: bool)
      modifies this
      ensures writing <==> old(pending) != []
      ensures State() == if old(pending) != [] then Taken(old(State()), final) else old(State())
    {
      hide Marked, TelemetryStore.State;
      if pending == [] {
        return false;
      }
      phase := Writing(pending, pendingRows, final);
      pending, pendingRows := [], 0;
      fates, from, lo := Marked(fates, from, |fates|, InFlight), |fates|, from;
      return true;
    }

    /** The loop of `run` from the end of a flush to its next await, or to its return. */
    method Continue(final: bool)
      modifies this
      ensures State() == Continued(old(State()), final)
    {
      hide Marked, TelemetryStore.State, Taken;
      if final {
        phase := Returned;
      } else if !stopping {
        phase := Waiting;
      } else {
        var writing := BeginFlush(true);
        if !writing {
          phase := Returned;
        }
      }
    }

    method Start()
      requires phase.Created?
      modifies this
      ensures State() == Step(old(State()), Limits(), Event.Begin)
    {
      Continue(false);
    }

    /** The wakeup was set or the interval has passed. */
    method WakeUp()
      requires phase.Waiting?
      modifies this
      ensures State() == Step(old(State()), Limits(), Event.Wake)
    {
      hide Taken, TelemetryStore.State, Continued;
      wakeup := false;
      var writing := BeginFlush(false);
      if !writing {
        Continue(false);
      }
    }

    /** The store's thread has written the batch, or failed without a trace. */
    method StoreDone(succeeds: bool)
      requires phase.Writing?
      modifies this, store
      ensures State() == Step(old(State()), Limits(), Event.Complete(succeeds))
    {
      hide Marked, Taken, TelemetryStore.State, Continued, WritePackets, ResultOf;
      var p := phase;
      if succeeds {
        var result := store.WriteBatch(p.batch);
        stats := stats.(committedBatches := stats.committedBatches + 1, writtenRows := stats.writtenRows + result.rows,
                        duplicateRows := stats.duplicateRows + result.duplicateRows);
        fates := Marked(fates, lo, lo + |p.batch|, Stored);
      } else {
        stats := stats.(failedBatches := stats.failedBatches + 1, failedRows := stats.failedRows + p.rows);
        fates := Marked(fates, lo, lo + |p.batch|, Failed);
      }
      ContinuedFrom(State(), Phase.Created, p.final);
      Continue(p.final);
    }
  }
}
