/** The Loki sink as a transition system: OnLine and the phases of any number of Flush calls,
    interleaved, with every push and cursor access free to fail. A cursor is read, added to and written
    outside the lock, so its read and its write are two steps. */
module SinkProtocol {
  import opened Text
  import opened SinkSpec
  import opened LokiSinks

  /** The stored offset a Flush has read for one of its bumps and not yet written back. */
  datatype Reading = Reading(key: StreamKey, offset: int)

  /** Where one Flush call stands between its steps. */
  datatype Flight =
    | Pushing(attempts: map<StreamKey, Attempt>)
    | Delivered(attempts: map<StreamKey, Attempt>)
    | Advancing(bumps: map<StreamKey, int>, reading: Option<Reading>)

  /** A line OnLine was given, and the source bytes it stands for. */
  datatype Line = Line(entry: Entry, byteLen: nat)

  /** The sink's state, and three histories per stream: the lines observed, the entries in
      acknowledged pushes, and the bytes whose cursor advance was given up. */
  datatype Sys = Sys(memory: Memory, flights: map<nat, Flight>, cursors: Cursors,
                     observed: map<StreamKey, seq<Line>>, acked: map<StreamKey, seq<Entry>>,
                     lost: map<StreamKey, int>)

  datatype Event =
    | Observe(key: StreamKey, line: Line)
    | Begin(id: nat)
    | PushOk(id: nat)
    | PushFail(id: nat)
    | DrainNow(id: nat)
    | ReadCursor(id: nat, key: StreamKey, fault: CursorFault)
    | WriteCursor(id: nat, key: StreamKey, fault: CursorFault)
    | Finish(id: nat)

  function At<K, V>(m: map<K, V>, k: K, default: V): V {
    if k in m then m[k] else default
  }

  function Start(cursors: Cursors): Sys {
    Sys(map[], map[], cursors, map[], map[], map[])
  }

  predicate Enabled(s: Sys, e: Event) {
    match e
    case Observe(_, _) => true
    case Begin(id) => id !in s.flights
    case PushOk(id) => id in s.flights && s.flights[id].Pushing?
    case PushFail(id) => id in s.flights && s.flights[id].Pushing?
    case DrainNow(id) => id in s.flights && s.flights[id].Delivered?
    case ReadCursor(id, key, _) =>
      id in s.flights && s.flights[id].Advancing? && s.flights[id].reading.None? && key in s.flights[id].bumps
    case WriteCursor(id, key, _) =>
      && id in s.flights && s.flights[id].Advancing? && key in s.flights[id].bumps
      && s.flights[id].reading.Some? && s.flights[id].reading.value.key == key
    case Finish(id) => id in s.flights && s.flights[id].Advancing? && s.flights[id].bumps == map[]
  }

  /** The path resolves and the read succeeds, or there is nothing to write. */
  predicate Readable(r: Resolver, key: StreamKey, fault: CursorFault) {
    key in r && fault != ReadFails
  }

  function PathOf(r: Resolver, key: StreamKey): CursorKey
    requires key in r
  {
    CursorKey(key.serverID, r[key])
  }

  function Acknowledge(acked: map<StreamKey, seq<Entry>>, attempts: map<StreamKey, Attempt>): map<StreamKey, seq<Entry>> {
    map k | k in acked.Keys + attempts.Keys ::
      At(acked, k, []) + (if k in attempts then attempts[k].entries else [])
  }

  /** A bump is done with; its flush is ready for the next. */
  function Handled(s: Sys, id: nat, key: StreamKey): map<nat, Flight>
    requires id in s.flights && s.flights[id].Advancing?
  {
    s.flights[id := Advancing(s.flights[id].bumps - {key}, None)]
  }

  function GivenUp(s: Sys, id: nat, key: StreamKey): Sys
    requires id in s.flights && s.flights[id].Advancing? && key in s.flights[id].bumps
  {
    s.(flights := Handled(s, id, key), lost := s.lost[key := At(s.lost, key, 0) + s.flights[id].bumps[key]])
  }

  /** GetLogCursor, with the lookup of the path before it. */
  function ReadStep(s: Sys, r: Resolver, id: nat, key: StreamKey, fault: CursorFault): Sys
    requires Enabled(s, ReadCursor(id, key, fault))
  {
    if !Readable(r, key, fault) then GivenUp(s, id, key)
    else s.(flights := s.flights[id := Advancing(s.flights[id].bumps, Some(Reading(key, OffsetAt(s.cursors, PathOf(r, key)))))])
  }

  /** UpsertLogCursor: what is stored is the offset read, plus the bump. */
  function WriteStep(s: Sys, r: Resolver, id: nat, key: StreamKey, fault: CursorFault): Sys
    requires Enabled(s, WriteCursor(id, key, fault))
  {
    if key !in r || fault == WriteFails then GivenUp(s, id, key)
    else s.(flights := Handled(s, id, key),
            cursors := s.cursors[PathOf(r, key) := s.flights[id].reading.value.offset + s.flights[id].bumps[key]])
  }

  function Apply(s: Sys, r: Resolver, e: Event): Sys
    requires Enabled(s, e)
  {
    match e
    case Observe(key, line) =>
      s.(memory := AppendLine(s.memory, key, line.entry, line.byteLen),
         observed := s.observed[key := At(s.observed, key, []) + [line]])
    case Begin(id) =>
      var attempts := TakeSnapshot(s.memory);
      if attempts == map[] then s else s.(flights := s.flights[id := Pushing(attempts)])
    case PushOk(id) =>
      var attempts := s.flights[id].attempts;
      s.(flights := s.flights[id := Delivered(attempts)], acked := Acknowledge(s.acked, attempts))
    case PushFail(id) => s.(flights := s.flights - {id})
    case DrainNow(id) =>
      var attempts := s.flights[id].attempts;
      s.(memory := Drain(s.memory, attempts), flights := s.flights[id := Advancing(Bumps(attempts), None)])
    case ReadCursor(id, key, fault) => ReadStep(s, r, id, key, fault)
    case WriteCursor(id, key, fault) => WriteStep(s, r, id, key, fault)
    case Finish(id) => s.(flights := s.flights - {id})
  }

  /** The state after a run of events, None when some event was not possible. */
  function Exec(s: Sys, r: Resolver, es: seq<Event>): Option<Sys> {
    if es == [] then Some(s)
    else
      var before := Exec(s, r, es[..|es| - 1]);
      if before.None? || !Enabled(before.value, es[|es| - 1]) then None
      else Some(Apply(before.value, r, es[|es| - 1]))
  }

  /** At most one Flush in flight: no flush begins while another is under way. */
  predicate Serial(s: Sys, r: Resolver, es: seq<Event>)
    requires Exec(s, r, es).Some?
  {
    es == [] ||
    (Serial(s, r, es[..|es| - 1]) &&
     (es[|es| - 1].Begin? ==> Exec(s, r, es[..|es| - 1]).value.flights == map[]))
  }

  // ------------------------------------------------------- the per-stream view

  function Lines(h: seq<Line>): seq<Entry> {
    seq(|h|, i requires 0 <= i < |h| => h[i].entry)
  }

  function Bytes(h: seq<Line>): nat {
    if h == [] then 0 else Bytes(h[..|h| - 1]) + h[|h| - 1].byteLen
  }

  function Observed(s: Sys, k: StreamKey): seq<Line> { At(s.observed, k, []) }
  function Acked(s: Sys, k: StreamKey): seq<Entry> { At(s.acked, k, []) }
  function Buffered(s: Sys, k: StreamKey): seq<Entry> { LiveAt(s.memory, k).entries }

  function CursorOf(c: Cursors, r: Resolver, k: StreamKey): int
    requires k in r
  {
    OffsetAt(c, CursorKey(k.serverID, r[k]))
  }

  /** Distinct files of one server resolve to distinct paths. */
  ghost predicate DistinctPaths(r: Resolver) {
    forall k, l :: k in r && l in r && k != l ==> CursorKey(k.serverID, r[k]) != CursorKey(l.serverID, r[l])
  }

  /** The flight under way, when there is at most one. */
  ghost function Current(flights: map<nat, Flight>): Option<Flight> {
    if flights == map[] then None
    else
      var id :| id in flights;
      Some(flights[id])
  }

  /** One stream's part in the flight under way. */
  datatype Stage = Rest | Sent(a: Attempt) | Accepted(a: Attempt) | Owed(delta: int)

  /** One stream of a system state; `settled` is the cursor's advance so far plus what was lost. */
  datatype Chan = Chan(obs: seq<Line>, acked: seq<Entry>, live: Live, stage: Stage, settled: int)

  function StageOf(f: Option<Flight>, k: StreamKey): Stage {
    match f
    case Some(Pushing(attempts)) => if k in attempts then Sent(attempts[k]) else Rest
    case Some(Delivered(attempts)) => if k in attempts then Accepted(attempts[k]) else Rest
    case Some(Advancing(bumps, _)) => if k in bumps then Owed(bumps[k]) else Rest
    case None => Rest
  }

  function Advanced(s: Sys, r: Resolver, start: Cursors, k: StreamKey): int {
    if k in r then CursorOf(s.cursors, r, k) - CursorOf(start, r, k) else 0
  }

  function View(s: Sys, r: Resolver, start: Cursors, f: Option<Flight>, k: StreamKey): Chan {
    Chan(Observed(s, k), Acked(s, k), LiveAt(s.memory, k), StageOf(f, k),
         Advanced(s, r, start, k) + At(s.lost, k, 0))
  }

  /** How many observed lines have left the buffer. */
  function Drained(c: Chan): int {
    if c.stage.Accepted? then |c.acked| - |c.stage.a.entries| else |c.acked|
  }

  /** An attempt holds the lines that follow the first `drained`. */
  ghost predicate AttemptInv(a: Attempt, obs: seq<Line>, drained: nat) {
    var n := drained + |a.entries|;
    && drained < n <= |obs|
    && a.entries == Lines(obs)[drained..n]
    && a.bytes == Bytes(obs[..n]) - Bytes(obs[..drained])
  }

  ghost predicate ChanInv(c: Chan) {
    var d := Drained(c);
    && 0 <= d <= |c.acked| <= |c.obs|
    && c.acked == Lines(c.obs)[..|c.acked|]
    && c.live.entries == Lines(c.obs)[d..]
    && c.live.bytes == Bytes(c.obs) - Bytes(c.obs[..d])
    && (c.stage.Sent? || c.stage.Accepted? ==> AttemptInv(c.stage.a, c.obs, d))
    && (c.stage.Owed? ==> c.stage.delta > 0)
    && c.settled + (if c.stage.Owed? then c.stage.delta else 0) == Bytes(c.obs[..d])
  }

  // ------------------------------------------------------- one stream, one step

  lemma {:induction false} BytesPrefix(obs: seq<Line>, i: nat, j: nat)
    requires i <= j <= |obs|
    ensures Bytes(obs[..i]) <= Bytes(obs[..j])
  {
    if i < j {
      assert obs[..j][..j - 1] == obs[..j - 1];
      BytesPrefix(obs, i, j - 1);
    }
  }

  lemma {:induction false} ObserveChan(c: Chan, line: Line)
    requires ChanInv(c)
    ensures ChanInv(c.(obs := c.obs + [line],
                       live := Live(c.live.entries + [line.entry], c.live.bytes + line.byteLen)))
  {
    hide Bytes;
    hide Lines;
    var obs' := c.obs + [line];
    LinesMore(c.obs, line);
    var d := Drained(c);
    assert obs'[..d] == c.obs[..d];
    if c.stage.Sent? || c.stage.Accepted? {
      var n := d + |c.stage.a.entries|;
      assert obs'[..n] == c.obs[..n];
    }
  }

  lemma {:induction false} LinesMore(obs: seq<Line>, line: Line)
    ensures Lines(obs + [line]) == Lines(obs) + [line.entry] && |Lines(obs)| == |obs|
    ensures Bytes(obs + [line]) == Bytes(obs) + line.byteLen
  {
    assert (obs + [line])[..|obs|] == obs;
  }

  lemma {:induction false} BeginChan(c: Chan)
    requires ChanInv(c) && c.stage == Rest && c.live.entries != []
    ensures ChanInv(c.(stage := Sent(Attempt(c.live.entries, c.live.bytes))))
  {
    assert c.obs[..|c.obs|] == c.obs;
    assert Lines(c.obs)[|c.acked|..] == Lines(c.obs)[|c.acked|..|c.obs|];
  }

  lemma {:induction false} AcceptChan(c: Chan)
    requires ChanInv(c) && c.stage.Sent?
    ensures ChanInv(c.(stage := Accepted(c.stage.a), acked := c.acked + c.stage.a.entries))
  {
    assert c.acked + c.stage.a.entries == Lines(c.obs)[..|c.acked| + |c.stage.a.entries|];
  }

  lemma {:induction false} DrainChan(c: Chan)
    requires ChanInv(c) && c.stage.Accepted?
    ensures ChanInv(c.(stage := if c.stage.a.bytes > 0 then Owed(c.stage.a.bytes) else Rest,
                       live := DrainLive(c.live, c.stage.a)))
  {
    var d, n := Drained(c), |c.stage.a.entries|;
    BytesPrefix(c.obs, d, d + n);
    assert Lines(c.obs)[d..][n..] == Lines(c.obs)[d + n..];
  }

  lemma {:induction false} SettleChan(c: Chan)
    requires ChanInv(c) && c.stage.Owed?
    ensures ChanInv(c.(stage := Rest, settled := c.settled + c.stage.delta)) && c.stage.delta > 0
  {
  }

  lemma {:induction false} RestChan(c: Chan)
    requires ChanInv(c) && (c.stage.Rest? || c.stage.Sent?)
    ensures ChanInv(c.(stage := Rest))
  {
  }

  lemma {:induction false} RejoinAt<T>(all: seq<T>, d: nat, n: nat)
    requires d <= n <= |all|
    ensures all[..n] + all[d..][n - d..] == all
  {
  }

  lemma {:induction false} ConservedChan(c: Chan)
    requires ChanInv(c)
    ensures var overlap := |c.acked| - Drained(c);
            && 0 <= overlap <= |c.live.entries| && overlap <= |c.acked| <= |c.obs|
            && c.acked + c.live.entries[overlap..] == Lines(c.obs)
            && c.live.bytes == Bytes(c.obs) - Bytes(c.obs[..|c.acked| - overlap])
  {
    RejoinAt(Lines(c.obs), Drained(c), |c.acked|);
  }

  // ------------------------------------------------------------ the whole system

  ghost predicate Inv(s: Sys, r: Resolver, start: Cursors) {
    && (forall i, j :: i in s.flights && j in s.flights ==> i == j)
    && (forall k :: ChanInv(View(s, r, start, Current(s.flights), k)))
    && (forall k :: k in s.memory <==> Observed(s, k) != [])
    && (forall k :: At(s.lost, k, 0) >= 0)
    && ReadsAreCurrent(s, r)
  }

  /** What a flush has read of a cursor is still stored there. */
  ghost predicate ReadsAreCurrent(s: Sys, r: Resolver) {
    forall id :: id in s.flights && s.flights[id].Advancing? && s.flights[id].reading.Some? ==>
      var read := s.flights[id].reading.value;
      read.key in s.flights[id].bumps && read.key in r && read.offset == OffsetAt(s.cursors, PathOf(r, read.key))
  }

  lemma {:induction false} CurrentIs(s: Sys, id: nat)
    requires forall i, j :: i in s.flights && j in s.flights ==> i == j
    requires id in s.flights
    ensures Current(s.flights) == Some(s.flights[id])
    ensures s.flights - {id} == map[]
  {
  }

  lemma {:induction false} ObserveView(s: Sys, r: Resolver, start: Cursors, key: StreamKey, line: Line, k: StreamKey)
    ensures var s' := Apply(s, r, Observe(key, line));
            var c := View(s, r, start, Current(s.flights), k);
            View(s', r, start, Current(s'.flights), k) ==
            if k == key
            then c.(obs := c.obs + [line], live := Live(c.live.entries + [line.entry], c.live.bytes + line.byteLen))
            else c
  {
  }

  lemma {:induction false} ObservePreserves(s: Sys, r: Resolver, start: Cursors, key: StreamKey, line: Line)
    requires Inv(s, r, start)
    ensures Inv(Apply(s, r, Observe(key, line)), r, start)
  {
    hide ChanInv;
    hide View;
    var s' := Apply(s, r, Observe(key, line));
    forall k ensures ChanInv(View(s', r, start, Current(s'.flights), k)) {
      ObserveView(s, r, start, key, line, k);
      ObserveChan(View(s, r, start, Current(s.flights), k), line);
    }
  }

  lemma {:induction false} BeginPreserves(s: Sys, r: Resolver, start: Cursors, id: nat)
    requires Inv(s, r, start) && s.flights == map[]
    ensures Inv(Apply(s, r, Begin(id)), r, start)
  {
    hide ChanInv;
    var s' := Apply(s, r, Begin(id));
    if s' != s {
      CurrentIs(s', id);
      forall k ensures ChanInv(View(s', r, start, Current(s'.flights), k)) {
        var c := View(s, r, start, Current(s.flights), k);
        assert ChanInv(c);
        if k in TakeSnapshot(s.memory) {
          BeginChan(c);
        }
      }
    }
  }

  lemma {:induction false} PushOkView(s: Sys, r: Resolver, start: Cursors, id: nat, k: StreamKey)
    requires Enabled(s, PushOk(id))
    ensures var s' := Apply(s, r, PushOk(id));
            var c := View(s, r, start, Some(s.flights[id]), k);
            View(s', r, start, Some(s'.flights[id]), k) ==
            if c.stage.Sent? then c.(stage := Accepted(c.stage.a), acked := c.acked + c.stage.a.entries) else c
  {
    AckedAfter(s.acked, s.flights[id].attempts, k);
    hide Acknowledge;
    hide Bytes;
  }

  lemma {:induction false} AckedAfter(acked: map<StreamKey, seq<Entry>>, attempts: map<StreamKey, Attempt>, k: StreamKey)
    ensures At(Acknowledge(acked, attempts), k, []) ==
            if k in attempts then At(acked, k, []) + attempts[k].entries else At(acked, k, [])
  {
    assert At(acked, k, []) + [] == At(acked, k, []);
  }

  lemma {:induction false} PushOkPreserves(s: Sys, r: Resolver, start: Cursors, id: nat)
    requires Inv(s, r, start) && Enabled(s, PushOk(id))
    ensures Inv(Apply(s, r, PushOk(id)), r, start)
  {
    hide ChanInv;
    hide View;
    hide Acknowledge;
    var s' := Apply(s, r, PushOk(id));
    CurrentIs(s, id);
    CurrentIs(s', id);
    forall k ensures ChanInv(View(s', r, start, Current(s'.flights), k)) {
      var c := View(s, r, start, Current(s.flights), k);
      assert ChanInv(c);
      PushOkView(s, r, start, id, k);
      if c.stage.Sent? {
        AcceptChan(c);
      }
    }
  }

  lemma {:induction false} DrainView(s: Sys, r: Resolver, start: Cursors, id: nat, k: StreamKey)
    requires Enabled(s, DrainNow(id)) && (k in s.flights[id].attempts ==> k in s.memory)
    ensures var s' := Apply(s, r, DrainNow(id));
            var c := View(s, r, start, Some(s.flights[id]), k);
            View(s', r, start, Some(s'.flights[id]), k) ==
            if c.stage.Accepted?
            then c.(stage := if c.stage.a.bytes > 0 then Owed(c.stage.a.bytes) else Rest, live := DrainLive(c.live, c.stage.a))
            else c
  {
    hide DrainLive;
  }

  lemma {:induction false} AcceptedHasLines(c: Chan)
    requires ChanInv(c) && c.stage.Accepted?
    ensures c.obs != []
  {
  }

  lemma {:induction false} DrainPreserves(s: Sys, r: Resolver, start: Cursors, id: nat)
    requires Inv(s, r, start) && Enabled(s, DrainNow(id))
    ensures Inv(Apply(s, r, DrainNow(id)), r, start)
  {
    hide ChanInv;
    hide DrainLive;
    var s' := Apply(s, r, DrainNow(id));
    CurrentIs(s, id);
    CurrentIs(s', id);
    forall k ensures ChanInv(View(s', r, start, Current(s'.flights), k)) {
      var c := View(s, r, start, Current(s.flights), k);
      assert ChanInv(c);
      if k in s.flights[id].attempts {
        AcceptedHasLines(c);
      }
      DrainView(s, r, start, id, k);
      if c.stage.Accepted? {
        DrainChan(c);
      }
    }
  }

  /** A cursor step that ends the handling of its bump. */
  predicate Settles(r: Resolver, e: Event) {
    e.WriteCursor? || (e.ReadCursor? && !Readable(r, e.key, e.fault))
  }

  /** What a cursor step leaves of its flight. */
  function BumpsAfter(r: Resolver, e: Event, bumps: map<StreamKey, int>): map<StreamKey, int>
    requires e.ReadCursor? || e.WriteCursor?
  {
    if Settles(r, e) then bumps - {e.key} else bumps
  }

  lemma {:induction false} ReadFlight(s: Sys, r: Resolver, id: nat, key: StreamKey, fault: CursorFault)
    requires Enabled(s, ReadCursor(id, key, fault))
    ensures var s' := ReadStep(s, r, id, key, fault);
            && s'.flights.Keys == s.flights.Keys && (forall i :: i in s.flights && i != id ==> s'.flights[i] == s.flights[i])
            && s'.flights[id].Advancing? && s'.flights[id].bumps == BumpsAfter(r, ReadCursor(id, key, fault), s.flights[id].bumps)
            && s'.memory == s.memory && s'.observed == s.observed && s'.acked == s.acked
  {
    hide OffsetAt;
    hide At;
  }

  lemma {:induction false} WriteFlight(s: Sys, r: Resolver, id: nat, key: StreamKey, fault: CursorFault)
    requires Enabled(s, WriteCursor(id, key, fault))
    ensures var s' := WriteStep(s, r, id, key, fault);
            && s'.flights.Keys == s.flights.Keys && (forall i :: i in s.flights && i != id ==> s'.flights[i] == s.flights[i])
            && s'.flights[id].Advancing? && s'.flights[id].bumps == BumpsAfter(r, WriteCursor(id, key, fault), s.flights[id].bumps)
            && s'.memory == s.memory && s'.observed == s.observed && s'.acked == s.acked
  {
    hide At;
  }

  lemma {:induction false} CursorFlight(s: Sys, r: Resolver, e: Event)
    requires Enabled(s, e) && (e.ReadCursor? || e.WriteCursor?)
    ensures var s' := Apply(s, r, e);
            && s'.flights.Keys == s.flights.Keys && (forall id :: id in s.flights && id != e.id ==> s'.flights[id] == s.flights[id])
            && s'.flights[e.id].Advancing? && s'.flights[e.id].bumps == BumpsAfter(r, e, s.flights[e.id].bumps)
            && s'.memory == s.memory && s'.observed == s.observed && s'.acked == s.acked
  {
    hide ReadStep;
    hide WriteStep;
    hide BumpsAfter;
    if e.ReadCursor? {
      ReadFlight(s, r, e.id, e.key, e.fault);
    } else {
      WriteFlight(s, r, e.id, e.key, e.fault);
    }
  }

  lemma {:induction false} CursorStage(s: Sys, r: Resolver, e: Event, k: StreamKey)
    requires Enabled(s, e) && (e.ReadCursor? || e.WriteCursor?)
    ensures var s' := Apply(s, r, e);
            && e.id in s'.flights && s'.memory == s.memory && s'.observed == s.observed && s'.acked == s.acked
            && StageOf(Some(s'.flights[e.id]), k) ==
               if Settles(r, e) && k == e.key then Rest else StageOf(Some(s.flights[e.id]), k)
  {
    CursorFlight(s, r, e);
    hide Apply;
  }

  /** What a stream's cursor is to be, path by path. */
  lemma {:induction false} WrittenCursor(c: Cursors, r: Resolver, key: StreamKey, offset: int, k: StreamKey)
    requires DistinctPaths(r) && key in r && k in r
    ensures CursorOf(c[PathOf(r, key) := offset], r, k) == if k == key then offset else CursorOf(c, r, k)
  {
  }

  /** The cursor's advance so far, and what was given up of it. */
  function Settled(s: Sys, r: Resolver, start: Cursors, k: StreamKey): int {
    Advanced(s, r, start, k) + At(s.lost, k, 0)
  }

  /** The step stores a new offset for the stream's cursor. */
  predicate Writes(e: Event, r: Resolver, k: StreamKey) {
    e.WriteCursor? && e.key == k && k in r && e.fault != WriteFails
  }

  /** How far the cursor has moved since the flush that now writes it read it: the write stores over
      these advances. */
  function Overwrites(s: Sys, r: Resolver, e: Event, k: StreamKey): int
    requires Enabled(s, e)
  {
    if Writes(e, r, k) then CursorOf(s.cursors, r, k) - s.flights[e.id].reading.value.offset else 0
  }

  lemma {:induction false} SettledStays(s: Sys, s': Sys, r: Resolver, start: Cursors, k: StreamKey)
    requires s'.cursors == s.cursors && s'.lost == s.lost
    ensures Settled(s', r, start, k) == Settled(s, r, start, k)
  {
  }

  lemma {:induction false} GivenUpSettles(s: Sys, r: Resolver, start: Cursors, id: nat, key: StreamKey, k: StreamKey)
    requires id in s.flights && s.flights[id].Advancing? && key in s.flights[id].bumps
    ensures Settled(GivenUp(s, id, key), r, start, k) ==
            Settled(s, r, start, k) + if k == key then s.flights[id].bumps[key] else 0
  {
    hide CursorOf;
    hide Handled;
  }

  lemma {:induction false} WriteSettles(s: Sys, r: Resolver, start: Cursors, id: nat, key: StreamKey, fault: CursorFault, k: StreamKey)
    requires DistinctPaths(r) && Enabled(s, WriteCursor(id, key, fault)) && key in r && fault != WriteFails
    ensures Settled(WriteStep(s, r, id, key, fault), r, start, k) + Overwrites(s, r, WriteCursor(id, key, fault), k) ==
            Settled(s, r, start, k) + if k == key then s.flights[id].bumps[key] else 0
  {
    if k in r {
      WrittenCursor(s.cursors, r, key, s.flights[id].reading.value.offset + s.flights[id].bumps[key], k);
    }
    hide DistinctPaths;
    hide CursorOf;
    hide Handled;
    hide At;
  }

  /** What a cursor step settles: a write moves the cursor by its bump, less what it stores over. */
  lemma {:induction false} StepSettles(s: Sys, r: Resolver, start: Cursors, e: Event, k: StreamKey)
    requires DistinctPaths(r) && Enabled(s, e) && (e.ReadCursor? || e.WriteCursor?)
    ensures Settled(Apply(s, r, e), r, start, k) + Overwrites(s, r, e, k) ==
            Settled(s, r, start, k) + if Settles(r, e) && k == e.key then s.flights[e.id].bumps[k] else 0
  {
    hide DistinctPaths;
    hide GivenUp;
    GivenUpSettles(s, r, start, e.id, e.key, k);
    if e.WriteCursor? && e.key in r && e.fault != WriteFails {
      hide WriteStep;
      hide Overwrites;
      hide Settled;
      WriteSettles(s, r, start, e.id, e.key, e.fault, k);
    } else if Settles(r, e) {
      hide Settled;
    } else {
      SettledStays(s, ReadStep(s, r, e.id, e.key, e.fault), r, start, k);
      hide Settled;
    }
  }

  lemma {:induction false} CurrentReadsOverwriteNothing(s: Sys, r: Resolver, e: Event, k: StreamKey)
    requires ReadsAreCurrent(s, r) && Enabled(s, e)
    ensures Overwrites(s, r, e, k) == 0
  {
  }

  lemma {:induction false} CursorSettled(s: Sys, r: Resolver, start: Cursors, e: Event, k: StreamKey)
    requires DistinctPaths(r) && ReadsAreCurrent(s, r) && Enabled(s, e) && (e.ReadCursor? || e.WriteCursor?)
    ensures Settled(Apply(s, r, e), r, start, k) ==
            Settled(s, r, start, k) + if Settles(r, e) && k == e.key then s.flights[e.id].bumps[k] else 0
  {
    CurrentReadsOverwriteNothing(s, r, e, k);
    hide Apply;
    hide Settled;
    hide Overwrites;
    hide DistinctPaths;
    StepSettles(s, r, start, e, k);
  }

  lemma {:induction false} CursorView(s: Sys, r: Resolver, start: Cursors, e: Event, k: StreamKey)
    requires DistinctPaths(r) && ReadsAreCurrent(s, r) && Enabled(s, e) && (e.ReadCursor? || e.WriteCursor?)
    ensures var s' := Apply(s, r, e);
            var c := View(s, r, start, Some(s.flights[e.id]), k);
            && e.id in s'.flights
            && View(s', r, start, Some(s'.flights[e.id]), k) ==
               if Settles(r, e) && k == e.key then c.(stage := Rest, settled := c.settled + s.flights[e.id].bumps[k]) else c
  {
    hide Apply;
    hide ReadsAreCurrent;
    hide DistinctPaths;
    hide Advanced;
    hide StageOf;
    CursorStage(s, r, e, k);
    CursorSettled(s, r, start, e, k);
  }

  lemma {:induction false} CursorLost(s: Sys, r: Resolver, e: Event, k: StreamKey)
    requires Enabled(s, e) && (e.ReadCursor? || e.WriteCursor?) && s.flights[e.id].bumps[e.key] > 0 && At(s.lost, k, 0) >= 0
    ensures At(Apply(s, r, e).lost, k, 0) >= 0
  {
  }

  lemma {:induction false} ReadStepReads(s: Sys, r: Resolver, id: nat, key: StreamKey, fault: CursorFault)
    requires Enabled(s, ReadCursor(id, key, fault)) && forall i :: i in s.flights ==> i == id
    ensures ReadsAreCurrent(ReadStep(s, r, id, key, fault), r)
  {
    hide At;
  }

  lemma {:induction false} WriteStepReads(s: Sys, r: Resolver, id: nat, key: StreamKey, fault: CursorFault)
    requires Enabled(s, WriteCursor(id, key, fault)) && forall i :: i in s.flights ==> i == id
    ensures ReadsAreCurrent(WriteStep(s, r, id, key, fault), r)
  {
    hide At;
    var s' := WriteStep(s, r, id, key, fault);
    assert s'.flights[id].reading.None? && forall i :: i in s'.flights ==> i == id;
  }

  lemma {:induction false} CursorStepReads(s: Sys, r: Resolver, e: Event)
    requires Enabled(s, e) && (e.ReadCursor? || e.WriteCursor?)
    requires forall i, j :: i in s.flights && j in s.flights ==> i == j
    ensures ReadsAreCurrent(Apply(s, r, e), r)
  {
    hide ReadStep;
    hide WriteStep;
    hide ReadsAreCurrent;
    if e.ReadCursor? {
      ReadStepReads(s, r, e.id, e.key, e.fault);
    } else {
      WriteStepReads(s, r, e.id, e.key, e.fault);
    }
  }

  lemma {:induction false} CursorFlights(s: Sys, r: Resolver, e: Event)
    requires Enabled(s, e) && (e.ReadCursor? || e.WriteCursor?)
    requires forall i, j :: i in s.flights && j in s.flights ==> i == j
    ensures var s' := Apply(s, r, e);
            && (forall i, j :: i in s'.flights && j in s'.flights ==> i == j)
            && Current(s.flights) == Some(s.flights[e.id]) && e.id in s'.flights && Current(s'.flights) == Some(s'.flights[e.id])
            && s'.memory == s.memory && s'.observed == s.observed
  {
    CurrentIs(s, e.id);
    CurrentIs(Apply(s, r, e), e.id);
  }

  /** One stream through a cursor step. */
  lemma {:induction false} CursorChan(s: Sys, r: Resolver, start: Cursors, e: Event, k: StreamKey)
    requires DistinctPaths(r) && ReadsAreCurrent(s, r) && Enabled(s, e) && (e.ReadCursor? || e.WriteCursor?)
    requires ChanInv(View(s, r, start, Some(s.flights[e.id]), k))
    ensures var s' := Apply(s, r, e); e.id in s'.flights && ChanInv(View(s', r, start, Some(s'.flights[e.id]), k))
  {
    hide ChanInv;
    hide Apply;
    hide ReadsAreCurrent;
    CursorView(s, r, start, e, k);
    var c := View(s, r, start, Some(s.flights[e.id]), k);
    if Settles(r, e) && k == e.key {
      assert c.stage == Owed(s.flights[e.id].bumps[k]);
      SettleChan(c);
    }
  }

  lemma {:induction false} OwedIsPositive(s: Sys, r: Resolver, start: Cursors, e: Event)
    requires Enabled(s, e) && (e.ReadCursor? || e.WriteCursor?) && ChanInv(View(s, r, start, Some(s.flights[e.id]), e.key))
    ensures s.flights[e.id].bumps[e.key] > 0
  {
  }

  lemma {:induction false} CursorPreserves(s: Sys, r: Resolver, start: Cursors, e: Event)
    requires DistinctPaths(r) && Inv(s, r, start) && Enabled(s, e) && (e.ReadCursor? || e.WriteCursor?)
    ensures Inv(Apply(s, r, e), r, start)
  {
    hide ChanInv;
    hide ReadsAreCurrent;
    hide View;
    hide Apply;
    hide Current;
    hide Settles;
    var s' := Apply(s, r, e);
    CursorFlights(s, r, e);
    CursorStepReads(s, r, e);
    forall k ensures ChanInv(View(s', r, start, Current(s'.flights), k)) {
      assert ChanInv(View(s, r, start, Current(s.flights), k));
      CursorChan(s, r, start, e, k);
    }
    assert ChanInv(View(s, r, start, Current(s.flights), e.key));
    OwedIsPositive(s, r, start, e);
    forall k ensures At(s'.lost, k, 0) >= 0 {
      assert At(s.lost, k, 0) >= 0;
      CursorLost(s, r, e, k);
    }
    forall k ensures k in s'.memory <==> Observed(s', k) != [] {
      assert Observed(s', k) == Observed(s, k);
    }
  }

  lemma {:induction false} FinishView(s: Sys, r: Resolver, start: Cursors, e: Event, k: StreamKey)
    requires Enabled(s, e) && (e.PushFail? || e.Finish?)
    ensures var s' := Apply(s, r, e);
            View(s', r, start, None, k) == View(s, r, start, Some(s.flights[e.id]), k).(stage := Rest)
    ensures var stage := View(s, r, start, Some(s.flights[e.id]), k).stage; stage.Rest? || stage.Sent?
  {
  }

  lemma {:induction false} FinishPreserves(s: Sys, r: Resolver, start: Cursors, e: Event)
    requires Inv(s, r, start) && Enabled(s, e) && (e.PushFail? || e.Finish?)
    ensures Inv(Apply(s, r, e), r, start)
  {
    hide ChanInv;
    hide View;
    var s' := Apply(s, r, e);
    CurrentIs(s, e.id);
    forall k ensures ChanInv(View(s', r, start, Current(s'.flights), k)) {
      var c := View(s, r, start, Current(s.flights), k);
      assert ChanInv(c);
      FinishView(s, r, start, e, k);
      RestChan(c);
    }
  }

  lemma {:induction false} StepPreserves(s: Sys, r: Resolver, start: Cursors, e: Event)
    requires DistinctPaths(r) && Inv(s, r, start) && Enabled(s, e)
    requires e.Begin? ==> s.flights == map[]
    ensures Inv(Apply(s, r, e), r, start)
  {
    match e
    case Observe(key, line) => ObservePreserves(s, r, start, key, line);
    case Begin(id) => BeginPreserves(s, r, start, id);
    case PushOk(id) => PushOkPreserves(s, r, start, id);
    case DrainNow(id) => DrainPreserves(s, r, start, id);
    case ReadCursor(_, _, _) => CursorPreserves(s, r, start, e);
    case WriteCursor(_, _, _) => CursorPreserves(s, r, start, e);
    case _ => FinishPreserves(s, r, start, e);
  }

  lemma {:induction false} SerialRunInv(start: Cursors, r: Resolver, es: seq<Event>)
    requires DistinctPaths(r)
    requires Exec(Start(start), r, es).Some? && Serial(Start(start), r, es)
    ensures Inv(Exec(Start(start), r, es).value, r, start)
  {
    if es != [] {
      SerialRunInv(start, r, es[..|es| - 1]);
      StepPreserves(Exec(Start(start), r, es[..|es| - 1]).value, r, start, es[|es| - 1]);
    }
  }

  // -------------------------------------------------------------- main results

  /** No line is lost, duplicated in the buffer or reordered: in every serial run, what was
      acknowledged followed by what is still buffered is what was observed, in arrival order; the
      part a delivered flight has yet to drain counts once. The byte counter covers exactly the
      lines still in the buffer. */
  lemma {:induction false} LinesConserved(start: Cursors, r: Resolver, es: seq<Event>, k: StreamKey)
    requires DistinctPaths(r)
    requires Exec(Start(start), r, es).Some? && Serial(Start(start), r, es)
    ensures var s := Exec(Start(start), r, es).value;
            var stage := StageOf(Current(s.flights), k);
            var overlap := if stage.Accepted? then |stage.a.entries| else 0;
            && overlap <= |Buffered(s, k)| && overlap <= |Acked(s, k)|
            && Acked(s, k) + Buffered(s, k)[overlap..] == Lines(Observed(s, k))
            && LiveAt(s.memory, k).bytes == Bytes(Observed(s, k)) - Bytes(Observed(s, k)[..|Acked(s, k)| - overlap])
  {
    SerialRunInv(start, r, es);
    var s := Exec(Start(start), r, es).value;
    hide ChanInv;
    ConservedChan(View(s, r, start, Current(s.flights), k));
  }

  /** Whatever cursor reads, writes or path lookups fail, a stored cursor never passes the source
      bytes of the lines acknowledged. */
  lemma {:induction false} CursorNeverAhead(start: Cursors, r: Resolver, es: seq<Event>, k: StreamKey)
    requires DistinctPaths(r) && k in r
    requires Exec(Start(start), r, es).Some? && Serial(Start(start), r, es)
    ensures var s := Exec(Start(start), r, es).value;
            && |Acked(s, k)| <= |Observed(s, k)|
            && CursorOf(s.cursors, r, k) <= CursorOf(start, r, k) + Bytes(Observed(s, k)[..|Acked(s, k)|])
  {
    SerialRunInv(start, r, es);
    var s := Exec(Start(start), r, es).value;
    var c := View(s, r, start, Current(s.flights), k);
    assert ChanInv(c) && At(s.lost, k, 0) >= 0;
    BytesPrefix(c.obs, Drained(c), |c.acked|);
  }

  ghost predicate FaultFree(es: seq<Event>, k: StreamKey) {
    forall e :: e in es && (e.ReadCursor? || e.WriteCursor?) && e.key == k ==> e.fault == NoFault
  }

  lemma {:induction false} CursorGivesUpNothing(s: Sys, r: Resolver, e: Event, k: StreamKey)
    requires (e.ReadCursor? || e.WriteCursor?) && k in r && Enabled(s, e) && ((e.ReadCursor? || e.WriteCursor?) && e.key == k ==> e.fault == NoFault)
    ensures At(Apply(s, r, e).lost, k, 0) == At(s.lost, k, 0)
  {
    hide OffsetAt;
    hide Handled;
  }

  lemma {:induction false} StepGivesUpNothing(s: Sys, r: Resolver, e: Event, k: StreamKey)
    requires k in r && Enabled(s, e) && ((e.ReadCursor? || e.WriteCursor?) && e.key == k ==> e.fault == NoFault)
    ensures At(Apply(s, r, e).lost, k, 0) == At(s.lost, k, 0)
  {
    if e.ReadCursor? || e.WriteCursor? {
      hide Apply;
      CursorGivesUpNothing(s, r, e, k);
    } else {
      hide AppendLine;
      hide TakeSnapshot;
      hide Acknowledge;
      hide Drain;
      hide Bumps;
    }
  }

  lemma {:induction false} NothingGivenUp(s: Sys, r: Resolver, es: seq<Event>, k: StreamKey)
    requires k in r && FaultFree(es, k) && Exec(s, r, es).Some?
    ensures At(Exec(s, r, es).value.lost, k, 0) == At(s.lost, k, 0)
  {
    hide Apply;
    hide Enabled;
    if es != [] {
      var es', e := es[..|es| - 1], es[|es| - 1];
      assert forall e :: e in es' ==> e in es;
      NothingGivenUp(s, r, es', k);
      assert e in es;
      StepGivesUpNothing(Exec(s, r, es').value, r, e, k);
    }
  }

  /** With no cursor fault on a stream, and no flush under way, its stored cursor has advanced by
      exactly the source bytes of the lines acknowledged. */
  lemma {:induction false} CursorExact(start: Cursors, r: Resolver, es: seq<Event>, k: StreamKey)
    requires DistinctPaths(r) && k in r && FaultFree(es, k)
    requires Exec(Start(start), r, es).Some? && Serial(Start(start), r, es)
    requires Exec(Start(start), r, es).value.flights == map[]
    ensures var s := Exec(Start(start), r, es).value;
            && |Acked(s, k)| <= |Observed(s, k)|
            && CursorOf(s.cursors, r, k) == CursorOf(start, r, k) + Bytes(Observed(s, k)[..|Acked(s, k)|])
  {
    SerialRunInv(start, r, es);
    NothingGivenUp(Start(start), r, es, k);
    var s := Exec(Start(start), r, es).value;
    assert ChanInv(View(s, r, start, Current(s.flights), k));
  }

  /** Once nothing is in flight or buffered, and no cursor access for the stream failed, everything
      observed has been acknowledged and the cursor covers all its bytes. */
  lemma {:induction false} QuiescentStream(start: Cursors, r: Resolver, es: seq<Event>, k: StreamKey)
    requires DistinctPaths(r) && k in r && FaultFree(es, k)
    requires Exec(Start(start), r, es).Some? && Serial(Start(start), r, es)
    requires Exec(Start(start), r, es).value.flights == map[]
    requires Buffered(Exec(Start(start), r, es).value, k) == []
    ensures var s := Exec(Start(start), r, es).value;
            && Acked(s, k) == Lines(Observed(s, k))
            && CursorOf(s.cursors, r, k) == CursorOf(start, r, k) + Bytes(Observed(s, k))
  {
    LinesConserved(start, r, es, k);
    CursorExact(start, r, es, k);
    hide Exec;
    hide Serial;
    var s := Exec(Start(start), r, es).value;
    assert StageOf(Current(s.flights), k) == Rest;
    assert Acked(s, k) + [] == Acked(s, k);
    assert |Lines(Observed(s, k))| == |Observed(s, k)|;
    assert Observed(s, k)[..|Observed(s, k)|] == Observed(s, k);
  }

  // ------------------------------------------------- the lines a run observes

  function LineOf(e: Event, k: StreamKey): seq<Line> {
    if e.Observe? && e.key == k then [e.line] else []
  }

  function History(es: seq<Event>, k: StreamKey): seq<Line> {
    if es == [] then [] else History(es[..|es| - 1], k) + LineOf(es[|es| - 1], k)
  }

  lemma {:induction false} ObservedStep(s: Sys, r: Resolver, e: Event, k: StreamKey)
    requires Enabled(s, e)
    ensures Observed(Apply(s, r, e), k) == Observed(s, k) + LineOf(e, k)
  {
  }

  lemma {:induction false} HistoryIsObserved(s: Sys, r: Resolver, es: seq<Event>, k: StreamKey)
    requires Exec(s, r, es).Some?
    ensures Observed(Exec(s, r, es).value, k) == Observed(s, k) + History(es, k)
  {
    if es != [] {
      var e, es' := es[|es| - 1], es[..|es| - 1];
      HistoryIsObserved(s, r, es', k);
      ObservedStep(Exec(s, r, es').value, r, e, k);
      hide Observed;
      hide LineOf;
    }
  }

  // ------------------------------------------------- the sequential Flush is a run

  /** One turn of the cursor loop: a read, and a write unless there is nothing to write. */
  function CursorEvents(r: Resolver, key: StreamKey, fault: CursorFault): seq<Event> {
    [ReadCursor(0, key, fault)] + if Readable(r, key, fault) then [WriteCursor(0, key, fault)] else []
  }

  function AdvanceEvents(r: Resolver, order: seq<StreamKey>, faults: map<StreamKey, CursorFault>): seq<Event> {
    if order == [] then []
    else
      var last := order[|order| - 1];
      AdvanceEvents(r, order[..|order| - 1], faults) + CursorEvents(r, last, FaultAt(faults, last))
  }

  function FlushEvents(m: Memory, r: Resolver, out: FlushOutcome, order: seq<StreamKey>): seq<Event> {
    if TakeSnapshot(m) == map[] then [Begin(0)]
    else if !out.pushOk then [Begin(0), PushFail(0)]
    else [Begin(0), PushOk(0), DrainNow(0)] + AdvanceEvents(r, order, out.faults) + [Finish(0)]
  }

  lemma {:induction false} ExecAppend(s: Sys, r: Resolver, es: seq<Event>, es': seq<Event>)
    requires Exec(s, r, es).Some?
    ensures Exec(s, r, es + es') == Exec(Exec(s, r, es).value, r, es')
  {
    if es' == [] {
      assert es + es' == es;
    } else {
      ExecAppend(s, r, es, es'[..|es'| - 1]);
      assert (es + es')[..|es + es'| - 1] == es + es'[..|es'| - 1];
    }
  }

  lemma {:induction false} SerialAppend(s: Sys, r: Resolver, es: seq<Event>, es': seq<Event>)
    requires Exec(s, r, es).Some? && Serial(s, r, es)
    requires Exec(Exec(s, r, es).value, r, es').Some? && Serial(Exec(s, r, es).value, r, es')
    ensures Exec(s, r, es + es').Some? && Serial(s, r, es + es')
  {
    ExecAppend(s, r, es, es');
    if es' == [] {
      assert es + es' == es;
    } else {
      SerialAppend(s, r, es, es'[..|es'| - 1]);
      ExecAppend(s, r, es, es'[..|es'| - 1]);
      assert (es + es')[..|es + es'| - 1] == es + es'[..|es'| - 1];
    }
  }

  lemma {:induction false} ExecStep(s: Sys, r: Resolver, es: seq<Event>, e: Event)
    requires Exec(s, r, es).Some? && Enabled(Exec(s, r, es).value, e)
    ensures Exec(s, r, es + [e]) == Some(Apply(Exec(s, r, es).value, r, e))
    ensures Serial(s, r, es) && (e.Begin? ==> Exec(s, r, es).value.flights == map[]) ==> Serial(s, r, es + [e])
  {
    assert (es + [e])[..|es + [e]| - 1] == es;
  }

  /** The state after the cursor phase has handled `order`. */
  ghost predicate AfterAdvances(s: Sys, s': Sys, r: Resolver, bumps: map<StreamKey, int>, order: seq<StreamKey>,
                                faults: map<StreamKey, CursorFault>)
  {
    && s' == s.(flights := s'.flights, cursors := s'.cursors, lost := s'.lost)
    && s'.flights == map[0 := Advancing(bumps - (set k | k in order), None)]
    && s'.cursors == AdvanceAll(s.cursors, r, bumps, order, faults)
  }

  /** One turn of the cursor loop. */
  lemma {:induction false} CursorTurn(s: Sys, r: Resolver, left: map<StreamKey, int>, key: StreamKey, fault: CursorFault)
    requires s.flights == map[0 := Advancing(left, None)] && key in left
    ensures var es := CursorEvents(r, key, fault);
            && Exec(s, r, es).Some? && Serial(s, r, es)
            && var s' := Exec(s, r, es).value;
            && s' == s.(flights := map[0 := Advancing(left - {key}, None)], lost := s'.lost,
                        cursors := AdvanceCursor(s.cursors, r, key, left[key], fault))
  {
    assert Exec(s, r, []) == Some(s) && Serial(s, r, []);
    hide Exec;
    hide Serial;
    var read := ReadCursor(0, key, fault);
    ExecStep(s, r, [], read);
    assert [] + [read] == [read];
    assert Apply(s, r, read) == ReadStep(s, r, 0, key, fault);
    TurnReads(s, r, left, key, fault);
    if Readable(r, key, fault) {
      var write := WriteCursor(0, key, fault);
      var s1 := ReadStep(s, r, 0, key, fault);
      ExecStep(s, r, [read], write);
      assert Apply(s1, r, write) == WriteStep(s1, r, 0, key, fault);
      assert [read] + [write] == [read, write];
    } else {
      assert [read] + [] == [read];
    }
  }

  lemma {:induction false} TurnReads(s: Sys, r: Resolver, left: map<StreamKey, int>, key: StreamKey, fault: CursorFault)
    requires s.flights == map[0 := Advancing(left, None)] && key in left
    ensures Enabled(s, ReadCursor(0, key, fault))
    ensures var s1 := ReadStep(s, r, 0, key, fault);
            var done := map[0 := Advancing(left - {key}, None)];
            if !Readable(r, key, fault)
            then s1 == s.(flights := done, lost := s1.lost)
            else && Enabled(s1, WriteCursor(0, key, fault))
                 && var s2 := WriteStep(s1, r, 0, key, fault);
                 s2 == s.(flights := done, lost := s2.lost, cursors := AdvanceCursor(s.cursors, r, key, left[key], fault))
  {
    hide At;
    var s1 := ReadStep(s, r, 0, key, fault);
    assert s.flights[0 := Advancing(left - {key}, None)] == map[0 := Advancing(left - {key}, None)];
    if Readable(r, key, fault) {
      assert s1.flights[0 := Advancing(left - {key}, None)] == map[0 := Advancing(left - {key}, None)];
    }
  }

  lemma {:induction false} AdvanceOne(s: Sys, s': Sys, r: Resolver, bumps: map<StreamKey, int>, init: seq<StreamKey>, last: StreamKey,
                   faults: map<StreamKey, CursorFault>)
    requires last in bumps && last !in init && AfterAdvances(s, s', r, bumps, init, faults)
    ensures var es := CursorEvents(r, last, FaultAt(faults, last));
            && Exec(s', r, es).Some? && Serial(s', r, es)
            && AfterAdvances(s, Exec(s', r, es).value, r, bumps, init + [last], faults)
  {
    hide AdvanceAll;
    hide AdvanceCursor;
    hide CursorEvents;
    hide Exec;
    hide Serial;
    FewerBumps(bumps, init, last);
    AdvanceAllMore(s.cursors, r, bumps, init, last, faults);
    CursorTurn(s', r, bumps - (set k | k in init), last, FaultAt(faults, last));
  }

  lemma {:induction false} FewerBumps(bumps: map<StreamKey, int>, init: seq<StreamKey>, last: StreamKey)
    requires last in bumps && last !in init
    ensures var left := bumps - set k | k in init;
            last in left && left[last] == bumps[last] && left - {last} == bumps - set k | k in init + [last]
  {
  }

  lemma {:induction false} AdvanceAllMore(c: Cursors, r: Resolver, bumps: map<StreamKey, int>, init: seq<StreamKey>,
                                          last: StreamKey, faults: map<StreamKey, CursorFault>)
    requires last in bumps
    ensures AdvanceAll(c, r, bumps, init + [last], faults) ==
            AdvanceCursor(AdvanceAll(c, r, bumps, init, faults), r, last, bumps[last], FaultAt(faults, last))
  {
    hide AdvanceCursor;
    hide FaultAt;
    assert (init + [last])[..|init|] == init;
  }

  lemma {:induction false} AdvanceEventsMore(r: Resolver, init: seq<StreamKey>, last: StreamKey, faults: map<StreamKey, CursorFault>)
    ensures AdvanceEvents(r, init + [last], faults) == AdvanceEvents(r, init, faults) + CursorEvents(r, last, FaultAt(faults, last))
  {
    assert (init + [last])[..|init|] == init;
  }

  lemma {:induction false} AdvanceRun(s: Sys, r: Resolver, bumps: map<StreamKey, int>, order: seq<StreamKey>,
                                      faults: map<StreamKey, CursorFault>)
    requires s.flights == map[0 := Advancing(bumps, None)]
    requires forall i, j :: 0 <= i < j < |order| ==> order[i] != order[j]
    requires forall k :: k in order ==> k in bumps
    ensures var es := AdvanceEvents(r, order, faults);
            && Exec(s, r, es).Some? && Serial(s, r, es)
            && AfterAdvances(s, Exec(s, r, es).value, r, bumps, order, faults)
  {
    if order == [] {
      assert bumps - (set k | k in order) == bumps;
    } else {
      hide AfterAdvances;
      hide Exec;
      hide Serial;
      hide Enabled;
      hide Apply;
      hide AdvanceEvents;
      hide FaultAt;
      var init, last := order[..|order| - 1], order[|order| - 1];
      hide CursorEvents;
      var es, turn := AdvanceEvents(r, init, faults), CursorEvents(r, last, FaultAt(faults, last));
      assert order == init + [last];
      AdvanceRun(s, r, bumps, init, faults);
      assert last !in init && last in order;
      AdvanceOne(s, Exec(s, r, es).value, r, bumps, init, last, faults);
      ExecAppend(s, r, es, turn);
      SerialAppend(s, r, es, turn);
      AdvanceEventsMore(r, init, last, faults);
    }
  }

  lemma {:induction false} BeginRun(s: Sys, r: Resolver)
    requires s.flights == map[] && TakeSnapshot(s.memory) != map[]
    ensures Exec(s, r, [Begin(0)]) == Some(s.(flights := map[0 := Pushing(TakeSnapshot(s.memory))]))
    ensures Serial(s, r, [Begin(0)])
  {
    assert Exec(s, r, []) == Some(s) && Serial(s, r, []);
    hide Exec;
    hide Serial;
    hide TakeSnapshot;
    ExecStep(s, r, [], Begin(0));
    assert [] + [Begin(0)] == [Begin(0)];
  }

  /** A Flush whose push fails. */
  lemma {:induction false} FailedPushRun(s: Sys, r: Resolver)
    requires s.flights == map[] && TakeSnapshot(s.memory) != map[]
    ensures Exec(s, r, [Begin(0), PushFail(0)]) == Some(s) && Serial(s, r, [Begin(0), PushFail(0)])
  {
    hide Exec;
    hide Serial;
    hide TakeSnapshot;
    BeginRun(s, r);
    ExecStep(s, r, [Begin(0)], PushFail(0));
    assert [Begin(0)] + [PushFail(0)] == [Begin(0), PushFail(0)];
  }

  lemma {:induction false} AcceptedPushRun(s: Sys, r: Resolver)
    requires s.flights == map[] && TakeSnapshot(s.memory) != map[]
    ensures var attempts := TakeSnapshot(s.memory);
            && Exec(s, r, [Begin(0), PushOk(0)]) ==
               Some(s.(acked := Acknowledge(s.acked, attempts), flights := map[0 := Delivered(attempts)]))
            && Serial(s, r, [Begin(0), PushOk(0)])
  {
    hide Exec;
    hide Serial;
    hide TakeSnapshot;
    hide Acknowledge;
    BeginRun(s, r);
    var attempts := TakeSnapshot(s.memory);
    ExecStep(s, r, [Begin(0)], PushOk(0));
    assert [Begin(0)] + [PushOk(0)] == [Begin(0), PushOk(0)];
    assert map[0 := Pushing(attempts)][0 := Delivered(attempts)] == map[0 := Delivered(attempts)];
  }

  /** The part of an accepted Flush before the cursor phase. */
  lemma {:induction false} PushRun(s: Sys, r: Resolver)
    requires s.flights == map[] && TakeSnapshot(s.memory) != map[]
    ensures var attempts := TakeSnapshot(s.memory);
            && Exec(s, r, [Begin(0), PushOk(0), DrainNow(0)]) ==
               Some(s.(memory := Drain(s.memory, attempts), acked := Acknowledge(s.acked, attempts),
                       flights := map[0 := Advancing(Bumps(attempts), None)]))
            && Serial(s, r, [Begin(0), PushOk(0), DrainNow(0)])
  {
    hide Exec;
    hide Serial;
    hide TakeSnapshot;
    hide Drain;
    hide Acknowledge;
    hide Bumps;
    AcceptedPushRun(s, r);
    var attempts := TakeSnapshot(s.memory);
    ExecStep(s, r, [Begin(0), PushOk(0)], DrainNow(0));
    assert [Begin(0), PushOk(0)] + [DrainNow(0)] == [Begin(0), PushOk(0), DrainNow(0)];
    assert map[0 := Delivered(attempts)][0 := Advancing(Bumps(attempts), None)] == map[0 := Advancing(Bumps(attempts), None)];
  }

  /** The cursor phase, to the return of Flush. */
  lemma {:induction false} CursorPhaseRun(s: Sys, r: Resolver, bumps: map<StreamKey, int>, order: seq<StreamKey>,
                       faults: map<StreamKey, CursorFault>)
    requires s.flights == map[0 := Advancing(bumps, None)] && Enumerates(order, bumps.Keys)
    ensures var es := AdvanceEvents(r, order, faults) + [Finish(0)];
            && Exec(s, r, es).Some? && Serial(s, r, es)
            && var s' := Exec(s, r, es).value;
            && s' == s.(flights := map[], cursors := AdvanceAll(s.cursors, r, bumps, order, faults), lost := s'.lost)
  {
    hide AdvanceAll;
    hide AdvanceEvents;
    hide Exec;
    hide Serial;
    AdvanceRun(s, r, bumps, order, faults);
    NoneLeft(bumps, order);
    var es := AdvanceEvents(r, order, faults);
    var s1 := Exec(s, r, es).value;
    assert s1.flights == map[0 := Advancing(map[], None)];
    ExecStep(s, r, es, Finish(0));
    assert s1.flights - {0} == map[];
  }

  lemma {:induction false} NoneLeft(bumps: map<StreamKey, int>, order: seq<StreamKey>)
    requires Enumerates(order, bumps.Keys)
    ensures bumps - (set k | k in order) == map[]
  {
  }

  /** The sequential Flush of `LokiSink` is one serial run of the protocol, so every property of
      serial runs holds of a sink driven by one goroutine. */
  lemma {:induction false} FlushIsSerialRun(s: Sys, r: Resolver, out: FlushOutcome, order: seq<StreamKey>, m': Memory, c': Cursors, ok: bool)
    requires s.flights == map[] && Flushed(s.memory, s.cursors, r, out, order, m', c', ok)
    ensures var es := FlushEvents(s.memory, r, out, order);
            && Exec(s, r, es).Some? && Serial(s, r, es)
            && var s' := Exec(s, r, es).value;
            && s'.memory == m' && s'.cursors == c' && s'.flights == map[] && s'.observed == s.observed
  {
    var attempts := TakeSnapshot(s.memory);
    if attempts == map[] {
      ExecStep(s, r, [], Begin(0));
      assert [] + [Begin(0)] == [Begin(0)];
    } else {
      hide Exec;
      hide Serial;
      hide Drain;
      hide AdvanceAll;
      if !out.pushOk {
        FailedPushRun(s, r);
      } else {
        PushRun(s, r);
        var head, tail := [Begin(0), PushOk(0), DrainNow(0)], AdvanceEvents(r, order, out.faults) + [Finish(0)];
        var mid := Exec(s, r, head).value;
        CursorPhaseRun(mid, r, Bumps(attempts), order, out.faults);
        SerialAppend(s, r, head, tail);
        ExecAppend(s, r, head, tail);
        assert FlushEvents(s.memory, r, out, order) == head + tail;
      }
    }
  }

  /** Byte counters as OnLine and drains of whole snapshots leave them. */
  ghost predicate WellCounted(m: Memory) {
    forall k :: LiveAt(m, k).bytes >= 0 && (LiveAt(m, k).entries == [] ==> LiveAt(m, k).bytes == 0)
  }

  /** That is how every serial run leaves them between flushes. */
  lemma {:induction false} SerialRunIsWellCounted(start: Cursors, r: Resolver, es: seq<Event>)
    requires DistinctPaths(r)
    requires Exec(Start(start), r, es).Some? && Serial(Start(start), r, es)
    requires Exec(Start(start), r, es).value.flights == map[]
    ensures WellCounted(Exec(Start(start), r, es).value.memory)
  {
    SerialRunInv(start, r, es);
    var s := Exec(Start(start), r, es).value;
    hide Exec;
    hide Serial;
    forall k ensures LiveAt(s.memory, k).bytes >= 0 && (LiveAt(s.memory, k).entries == [] ==> LiveAt(s.memory, k).bytes == 0) {
      var c := View(s, r, start, Current(s.flights), k);
      assert ChanInv(c);
      BytesPrefix(c.obs, Drained(c), |c.obs|);
      assert c.obs[..|c.obs|] == c.obs;
    }
  }

  /** A final Flush whose push is accepted leaves nothing buffered, and no bytes counted. */
  lemma {:induction false} FinalFlushEmpties(m: Memory, c: Cursors, r: Resolver, out: FlushOutcome, order: seq<StreamKey>,
                          m': Memory, c': Cursors, ok: bool)
    requires out.pushOk && Flushed(m, c, r, out, order, m', c', ok)
    ensures ok && forall k :: LiveAt(m', k).entries == []
    ensures WellCounted(m) ==> forall k :: LiveAt(m', k).bytes == 0
  {
    forall k ensures LiveAt(m', k).entries == [] {
      if k in m && m[k].entries != [] {
        assert k in TakeSnapshot(m);
      }
    }
    if WellCounted(m) {
      forall k ensures LiveAt(m', k).bytes == 0 {
        assert LiveAt(m, k).bytes >= 0;
      }
    }
  }

  // -------------------------------------------------------- two flushes at once

  /** Two flushes that overlap lose a line: both push the same entry, a second line arrives, and
      the second drain drops it although no push ever carried it. */
  lemma {:induction false} OverlappingFlushesLoseALine(k: StreamKey, a: Line, b: Line)
    requires a.entry != b.entry
    ensures var es := [Observe(k, a), Begin(1), Begin(2), PushOk(1), PushOk(2), Observe(k, b), DrainNow(1), DrainNow(2)];
            var s := Exec(Start(map[]), map[], es);
            && s.Some? && b in Observed(s.value, k)
            && b.entry !in Acked(s.value, k) && Buffered(s.value, k) == []
  {
    hide Exec;
    hide Serial;
    var s, at := OverlapPushes(k, a);
    var es := [Observe(k, a), Begin(1), Begin(2), PushOk(1), PushOk(2)];
    ExecStep(Start(map[]), map[], es, Observe(k, b));
    var s1 := Apply(s, map[], Observe(k, b));
    assert [a.entry] + [b.entry] == [a.entry, b.entry] && [a] + [b] == [a, b];
    assert s1.memory == map[k := Live([a.entry, b.entry], a.byteLen + b.byteLen)];
    assert s1.observed[k] == [a, b];
    ExecStep(Start(map[]), map[], es + [Observe(k, b)], DrainNow(1));
    var s2 := Apply(s1, map[], DrainNow(1));
    assert s2.memory[k].entries == [a.entry, b.entry][1..] == [b.entry];
    ExecStep(Start(map[]), map[], es + [Observe(k, b)] + [DrainNow(1)], DrainNow(2));
    assert es + [Observe(k, b)] + [DrainNow(1)] + [DrainNow(2)] ==
      [Observe(k, a), Begin(1), Begin(2), PushOk(1), PushOk(2), Observe(k, b), DrainNow(1), DrainNow(2)];
  }

  lemma {:induction false} OverlapBegins(k: StreamKey, a: Line) returns (s: Sys, at: map<StreamKey, Attempt>)
    ensures at == map[k := Attempt([a.entry], a.byteLen)]
    ensures s == Sys(map[k := Live([a.entry], a.byteLen)], map[1 := Pushing(at), 2 := Pushing(at)],
                     map[], map[k := [a]], map[], map[])
    ensures Exec(Start(map[]), map[], [Observe(k, a), Begin(1), Begin(2)]) == Some(s)
  {
    at := map[k := Attempt([a.entry], a.byteLen)];
    var s0, r: Resolver := Start(map[]), map[];
    assert Exec(s0, r, []) == Some(s0);
    hide Exec;
    hide Serial;
    var s1 := Apply(s0, r, Observe(k, a));
    ExecStep(s0, r, [], Observe(k, a));
    assert At(s0.observed, k, []) + [a] == [a] && LiveAt(s0.memory, k).entries + [a.entry] == [a.entry];
    assert s1.memory == map[k := Live([a.entry], a.byteLen)] && s1.observed == map[k := [a]];
    assert [] + [Observe(k, a)] == [Observe(k, a)];
    assert TakeSnapshot(s1.memory) == at;
    hide TakeSnapshot;
    ExecStep(s0, r, [Observe(k, a)], Begin(1));
    ExecStep(s0, r, [Observe(k, a)] + [Begin(1)], Begin(2));
    assert s1.flights == map[];
    assert map[][1 := Pushing(at)][2 := Pushing(at)] == map[1 := Pushing(at), 2 := Pushing(at)];
    s := s1.(flights := map[1 := Pushing(at), 2 := Pushing(at)]);
    assert [Observe(k, a)] + [Begin(1)] + [Begin(2)] == [Observe(k, a), Begin(1), Begin(2)];
  }

  lemma {:induction false} FirstAck(k: StreamKey, a: Line, at: map<StreamKey, Attempt>)
    requires at == map[k := Attempt([a.entry], a.byteLen)]
    ensures Acknowledge(map[], at) == map[k := [a.entry]]
  {
    var none: map<StreamKey, seq<Entry>> := map[];
    assert At(none, k, []) + [a.entry] == [a.entry];
  }

  lemma {:induction false} OverlapPushes(k: StreamKey, a: Line) returns (s: Sys, at: map<StreamKey, Attempt>)
    ensures at == map[k := Attempt([a.entry], a.byteLen)]
    ensures s == Sys(map[k := Live([a.entry], a.byteLen)], map[1 := Delivered(at), 2 := Delivered(at)],
                     map[], map[k := [a]], map[k := [a.entry, a.entry]], map[])
    ensures Exec(Start(map[]), map[], [Observe(k, a), Begin(1), Begin(2), PushOk(1), PushOk(2)]) == Some(s)
  {
    hide Exec;
    hide Serial;
    var s0, r: Resolver := Start(map[]), map[];
    var s2;
    s2, at := OverlapBegins(k, a);
    var es := [Observe(k, a), Begin(1), Begin(2)];
    ExecStep(s0, r, es, PushOk(1));
    FirstAck(k, a, at);
    ExecStep(s0, r, es + [PushOk(1)], PushOk(2));
    assert [a.entry] + [a.entry] == [a.entry, a.entry];
    assert Acknowledge(map[k := [a.entry]], at) == map[k := [a.entry, a.entry]];
    assert map[1 := Pushing(at), 2 := Pushing(at)][1 := Delivered(at)][2 := Delivered(at)] == map[1 := Delivered(at), 2 := Delivered(at)];
    s := s2.(flights := map[1 := Delivered(at), 2 := Delivered(at)], acked := map[k := [a.entry, a.entry]]);
    assert es + [PushOk(1)] + [PushOk(2)] == [Observe(k, a), Begin(1), Begin(2), PushOk(1), PushOk(2)];
  }

  /** When two flushes have both snapshotted one stream, of which `live` is the content as the
      first of them drains, and `more` arrives before the second does, the two drains leave exactly
      the lines neither pushed if and only if no line arrived after the later snapshot. */
  lemma {:induction false} OverlapIsSafeIffNothingArrived(live: Live, a1: Attempt, a2: Attempt, more: seq<Entry>)
    requires 0 < |a1.entries| && a1.entries <= live.entries
    requires 0 < |a2.entries| && a2.entries <= live.entries
    ensures var pushed := if |a1.entries| >= |a2.entries| then |a1.entries| else |a2.entries|;
            var once := DrainLive(live, a1);
            DrainLive(once.(entries := once.entries + more), a2).entries == live.entries[pushed..] + more <==>
            |live.entries| == pushed && more == []
  {
    var pushed := if |a1.entries| >= |a2.entries| then |a1.entries| else |a2.entries|;
    var once := DrainLive(live, a1);
    var rest := DrainLive(once.(entries := once.entries + more), a2).entries;
    assert |once.entries| == |live.entries| - |a1.entries|;
    assert |rest| == if |a2.entries| >= |once.entries| + |more| then 0 else |once.entries| + |more| - |a2.entries|;
    assert |live.entries[pushed..] + more| == |live.entries| - pushed + |more|;
  }
}
