/** What each critical section of the Loki sink does to its per-stream state, as functions
    on values. `LokiSink` is proved against these, and `SinkProtocol` interleaves them. */
module SinkSpec {
  import opened Text

  /** One (server, file id) ingest channel. */
  datatype StreamKey = StreamKey(serverID: int, fileID: string)
  datatype Entry = Entry(time: int, line: string)

  /** A stream's buffered entries and the source bytes they stand for. */
  datatype Live = Live(entries: seq<Entry>, bytes: int)
  type Memory = map<StreamKey, Live>

  /** What one Flush snapshotted for one stream. */
  datatype Attempt = Attempt(entries: seq<Entry>, bytes: int)

  /** The unique key of a stored cursor: (server, log path). */
  datatype CursorKey = CursorKey(serverID: int, path: string)
  type Cursors = map<CursorKey, int>
  type Resolver = map<StreamKey, string>

  /** How reading and writing one stream's cursor can go. */
  datatype CursorFault = NoFault | ReadFails | WriteFails

  function LiveAt(m: Memory, key: StreamKey): Live {
    if key in m then m[key] else Live([], 0)
  }

  function OffsetAt(c: Cursors, key: CursorKey): int {
    if key in c then c[key] else 0
  }

  /** OnLine's critical section. */
  function AppendLine(m: Memory, key: StreamKey, e: Entry, byteLen: nat): Memory {
    var live := LiveAt(m, key);
    m[key := Live(live.entries + [e], live.bytes + byteLen)]
  }

  /** Flush's first critical section: the non-empty streams, each with all its bytes. */
  function TakeSnapshot(m: Memory): map<StreamKey, Attempt> {
    map k | k in m && m[k].entries != [] :: Attempt(m[k].entries, m[k].bytes)
  }

  function DropPrefix(entries: seq<Entry>, n: nat): seq<Entry> {
    if n >= |entries| then [] else entries[n..]
  }

  function DrainLive(live: Live, a: Attempt): Live {
    Live(DropPrefix(live.entries, |a.entries|), if a.bytes > 0 then live.bytes - a.bytes else live.bytes)
  }

  /** Flush's second critical section: drop from every attempted stream as many entries, and as
      many bytes, as were snapshotted. */
  function Drain(m: Memory, attempts: map<StreamKey, Attempt>): Memory {
    map k | k in m :: if k in attempts then DrainLive(m[k], attempts[k]) else m[k]
  }

  /** The cursor advances a drain leaves to be written. */
  function Bumps(attempts: map<StreamKey, Attempt>): map<StreamKey, int> {
    map k | k in attempts && attempts[k].bytes > 0 :: attempts[k].bytes
  }

  lemma {:induction false} DrainStep(m: Memory, done: map<StreamKey, Attempt>, key: StreamKey, a: Attempt)
    requires key in m && key !in done
    ensures Drain(m, done)[key] == m[key]
    ensures Drain(m, done[key := a]) == Drain(m, done)[key := DrainLive(m[key], a)]
    ensures Bumps(done[key := a]) == if a.bytes > 0 then Bumps(done)[key := a.bytes] else Bumps(done)
  {
  }

  /** One read-add-write of a stored cursor. */
  function AdvanceCursor(c: Cursors, r: Resolver, key: StreamKey, delta: int, fault: CursorFault): Cursors {
    if key !in r || fault != NoFault then c
    else
      var ck := CursorKey(key.serverID, r[key]);
      c[ck := OffsetAt(c, ck) + delta]
  }

  /** The cursor phase, for one iteration order of the map of bumps. */
  function AdvanceAll(c: Cursors, r: Resolver, bumps: map<StreamKey, int>, order: seq<StreamKey>,
                      faults: map<StreamKey, CursorFault>): Cursors
  {
    if order == [] then c
    else
      var last := order[|order| - 1];
      var before := AdvanceAll(c, r, bumps, order[..|order| - 1], faults);
      if last in bumps then AdvanceCursor(before, r, last, bumps[last], FaultAt(faults, last)) else before
  }

  function FaultAt(faults: map<StreamKey, CursorFault>, key: StreamKey): CursorFault {
    if key in faults then faults[key] else NoFault
  }
}
