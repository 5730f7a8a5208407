/** What the live hub buffers and sends (live/hub.py). */
module LiveTypes {
  import opened Prelude
  import opened Packets

  /** A buffered cycle: the received record, and its time and number with the 32-bit wraps undone. */
  datatype LiveCycle = LiveCycle(record: CycleRecord, tMs: int, seqN: int, dtMs: Option<int>)

  datatype Identity = Identity(sessionId: Option<int>, tagId: int, bootId: int)

  datatype EndReason = Timeout | Replaced | TagEnd

  /** A frame carries its cycles; the JSON columns are built from them (see `Columns`). */
  datatype Frame =
    | Snapshot(tagId: int, of: Option<Identity>, configRev: Option<int>, active: bool, historyMs: int, cycles: seq<LiveCycle>)
    | Append(id: Identity, cycles: seq<LiveCycle>)
    | SessionStart(id: Identity, configRev: Option<int>)
    | SessionEnd(id: Identity, reason: EndReason)
    | SessionInfo(id: Identity, configRev: Option<int>)
    | Error(detail: string)
}
