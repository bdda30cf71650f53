/** Where a stored cursor gets to when calls of Flush overlap (internal/streamer/sink.go:282-331): the
    byte counters balance in every run, and a write of a cursor stores over what other flushes have
    written since its read. */
module SinkCursors {
  import opened Text
  import opened SinkSpec
  import opened SinkProtocol
  import opened SinkOverlaps

  // ---------------------------------------------------------- the byte balance

  /** A flight's share of a stream's bytes that its cursor is still to be advanced by. */
  function Part(f: Flight, k: StreamKey): int {
    if f.Advancing? && k in f.bumps then f.bumps[k] else 0
  }

  ghost function Owed(flights: map<nat, Flight>, k: StreamKey): int
    decreases |flights|
  {
    if flights == map[] then 0
    else
      var id :| id in flights;
      Part(flights[id], k) + Owed(flights - {id}, k)
  }

  lemma {:induction false} OwedWithout(flights: map<nat, Flight>, id: nat, k: StreamKey)
    requires id in flights
    ensures Owed(flights, k) == Part(flights[id], k) + Owed(flights - {id}, k)
    decreases |flights|
  {
    hide Part;
    var first :| first in flights && Owed(flights, k) == Part(flights[first], k) + Owed(flights - {first}, k);
    if first != id {
      OwedWithout(flights - {first}, id, k);
      OwedWithout(flights - {id}, first, k);
      assert flights - {first} - {id} == flights - {id} - {first};
    }
  }

  lemma {:induction false} OwedSet(flights: map<nat, Flight>, id: nat, f: Flight, k: StreamKey)
    ensures Owed(flights[id := f], k) == Part(f, k) + Owed(flights - {id}, k)
  {
    OwedWithout(flights[id := f], id, k);
    assert flights[id := f] - {id} == flights - {id};
  }

  /** The counters of a stream account for all its bytes but `over`. */
  ghost predicate Balanced(s: Sys, r: Resolver, start: Cursors, k: StreamKey, over: int) {
    && LiveAt(s.memory, k).bytes + Owed(s.flights, k) + Settled(s, r, start, k) + over == Bytes(Observed(s, k))
    && forall id: nat :: Holds(s, id, k) ==> k in s.memory
  }

  /** The advances that writes have stored over, in all. */
  function Overwritten(s: Sys, r: Resolver, es: seq<Event>, k: StreamKey): int
    requires Exec(s, r, es).Some?
  {
    if es == [] then 0
    else
      var init := es[..|es| - 1];
      Overwritten(s, r, init, k) + Overwrites(Exec(s, r, init).value, r, es[|es| - 1], k)
  }

  lemma {:induction false} StepBalances(s: Sys, r: Resolver, start: Cursors, e: Event, k: StreamKey, over: int)
    requires DistinctPaths(r) && Balanced(s, r, start, k, over) && Enabled(s, e)
    ensures Balanced(Apply(s, r, e), r, start, k, over + Overwrites(s, r, e, k))
  {
    hide Balanced;
    hide Apply;
    match e {
      case Observe(key, line) => ObserveBalances(s, r, start, key, line, k, over);
      case Begin(id) => BeginBalances(s, r, start, id, k, over);
      case DrainNow(id) => DrainBalances(s, r, start, id, k, over);
      case ReadCursor(_, _, _) => CursorBalances(s, r, start, e, k, over);
      case WriteCursor(_, _, _) => CursorBalances(s, r, start, e, k, over);
      case _ => PushBalances(s, r, start, e, k, over);
    }
  }

  lemma {:induction false} BytesMore(obs: seq<Line>, line: Line)
    ensures Bytes(obs + [line]) == Bytes(obs) + line.byteLen
  {
    assert (obs + [line])[..|obs|] == obs;
  }

  lemma {:induction false} ObserveBalances(s: Sys, r: Resolver, start: Cursors, key: StreamKey, line: Line, k: StreamKey, over: int)
    requires Balanced(s, r, start, k, over)
    ensures Balanced(Apply(s, r, Observe(key, line)), r, start, k, over)
  {
    hide Owed;
    hide Settled;
    hide Bytes;
    SettledStays(s, Apply(s, r, Observe(key, line)), r, start, k);
    BytesMore(Observed(s, k), line);
    var s' := Apply(s, r, Observe(key, line));
    assert forall i: nat :: Holds(s', i, k) == Holds(s, i, k);
  }

  lemma {:induction false} BeginBalances(s: Sys, r: Resolver, start: Cursors, id: nat, k: StreamKey, over: int)
    requires Balanced(s, r, start, k, over) && Enabled(s, Begin(id))
    ensures Balanced(Apply(s, r, Begin(id)), r, start, k, over)
  {
    hide Owed;
    hide Settled;
    hide Bytes;
    SettledStays(s, Apply(s, r, Begin(id)), r, start, k);
    var attempts := TakeSnapshot(s.memory);
    if attempts != map[] {
      OwedSet(s.flights, id, Pushing(attempts), k);
      assert s.flights - {id} == s.flights;
      var s' := Apply(s, r, Begin(id));
      assert forall i: nat :: i != id ==> Holds(s', i, k) == Holds(s, i, k);
    }
  }

  lemma {:induction false} PushBalances(s: Sys, r: Resolver, start: Cursors, e: Event, k: StreamKey, over: int)
    requires Balanced(s, r, start, k, over) && Enabled(s, e) && (e.PushOk? || e.PushFail? || e.Finish?)
    ensures Balanced(Apply(s, r, e), r, start, k, over)
  {
    hide Owed;
    hide Settled;
    hide Bytes;
    SettledStays(s, Apply(s, r, e), r, start, k);
    hide Acknowledge;
    var s' := Apply(s, r, e);
    OwedWithout(s.flights, e.id, k);
    if e.PushOk? {
      OwedSet(s.flights, e.id, s'.flights[e.id], k);
    }
    assert forall i: nat :: Holds(s', i, k) ==> Holds(s, i, k);
  }

  lemma {:induction false} DrainBalances(s: Sys, r: Resolver, start: Cursors, id: nat, k: StreamKey, over: int)
    requires Balanced(s, r, start, k, over) && Enabled(s, DrainNow(id))
    ensures Balanced(Apply(s, r, DrainNow(id)), r, start, k, over)
  {
    hide Owed;
    hide Settled;
    hide Bytes;
    SettledStays(s, Apply(s, r, DrainNow(id)), r, start, k);
    var s' := Apply(s, r, DrainNow(id));
    OwedWithout(s.flights, id, k);
    OwedSet(s.flights, id, s'.flights[id], k);
    assert k in s.flights[id].attempts ==> Holds(s, id, k);
    assert forall i: nat :: Holds(s', i, k) ==> Holds(s, i, k);
  }

  lemma {:induction false} CursorStepHolds(s: Sys, r: Resolver, e: Event, k: StreamKey, id: nat)
    requires Enabled(s, e) && (e.ReadCursor? || e.WriteCursor?)
    ensures Holds(Apply(s, r, e), id, k) ==> Holds(s, id, k)
  {
    CursorFlight(s, r, e);
    hide Apply;
    hide BumpsAfter;
  }

  lemma {:induction false} CursorStepOwes(s: Sys, r: Resolver, e: Event, k: StreamKey)
    requires Enabled(s, e) && (e.ReadCursor? || e.WriteCursor?)
    ensures Owed(Apply(s, r, e).flights, k) == Owed(s.flights, k) - if Settles(r, e) && k == e.key then s.flights[e.id].bumps[k] else 0
  {
    CursorFlight(s, r, e);
    hide Apply;
    hide Owed;
    var s' := Apply(s, r, e);
    OwedWithout(s.flights, e.id, k);
    OwedWithout(s'.flights, e.id, k);
    assert s'.flights - {e.id} == s.flights - {e.id};
  }

  lemma {:induction false} CursorBalances(s: Sys, r: Resolver, start: Cursors, e: Event, k: StreamKey, over: int)
    requires DistinctPaths(r) && Balanced(s, r, start, k, over) && Enabled(s, e) && (e.ReadCursor? || e.WriteCursor?)
    ensures Balanced(Apply(s, r, e), r, start, k, over + Overwrites(s, r, e, k))
  {
    hide Owed;
    hide Bytes;
    hide Settled;
    hide Overwrites;
    hide Holds;
    hide DistinctPaths;
    hide Apply;
    CursorFlight(s, r, e);
    StepSettles(s, r, start, e, k);
    CursorStepOwes(s, r, e, k);
    forall id: nat ensures Holds(Apply(s, r, e), id, k) ==> Holds(s, id, k) {
      CursorStepHolds(s, r, e, k, id);
    }
  }

  /** In every run, serial or not, whatever fails: the byte counter, the bumps drained but not yet
      written, what has been written or given up, and the advances stored over, sum to the bytes
      observed. */
  lemma {:induction false} BytesBalance(start: Cursors, r: Resolver, es: seq<Event>, k: StreamKey)
    requires DistinctPaths(r) && Exec(Start(start), r, es).Some?
    ensures Balanced(Exec(Start(start), r, es).value, r, start, k, Overwritten(Start(start), r, es, k))
  {
    hide Apply;
    hide Balanced;
    hide Overwrites;
    if es == [] {
      StartBalances(start, r, k);
    } else {
      var init := es[..|es| - 1];
      BytesBalance(start, r, init, k);
      StepBalances(Exec(Start(start), r, init).value, r, start, es[|es| - 1], k, Overwritten(Start(start), r, init, k));
    }
  }

  lemma {:induction false} StartBalances(start: Cursors, r: Resolver, k: StreamKey)
    ensures Balanced(Start(start), r, start, k, 0)
  {
  }

  // ------------------------------------------- when a write stores over another

  /** No write of the stream's cursor stores over an advance. */
  ghost predicate NeverOverwrites(s: Sys, r: Resolver, es: seq<Event>, k: StreamKey)
    requires Exec(s, r, es).Some?
  {
    es == [] ||
    (NeverOverwrites(s, r, es[..|es| - 1], k) && Overwrites(Exec(s, r, es[..|es| - 1]).value, r, es[|es| - 1], k) == 0)
  }

  /** The step reads the stream's cursor, for a write to come. */
  predicate Reads(e: Event, r: Resolver, k: StreamKey) {
    e.ReadCursor? && e.key == k && Readable(r, k, e.fault)
  }

  predicate CursorStepOf(e: Event, id: nat) {
    (e.ReadCursor? || e.WriteCursor?) && e.id == id
  }

  /** The flush that writes the cursor at `j` read it at `i`, and another flush wrote it in between. */
  predicate Crossed(es: seq<Event>, r: Resolver, i: nat, m: nat, j: nat, k: StreamKey) {
    && i < m < j < |es|
    && Reads(es[i], r, k) && Writes(es[m], r, k) && Writes(es[j], r, k) && es[i].id == es[j].id != es[m].id
    && forall n :: i < n < j ==> !CursorStepOf(es[n], es[j].id)
  }

  ghost predicate SomeCrossed(es: seq<Event>, r: Resolver, k: StreamKey) {
    exists i: nat, m: nat, j: nat :: Crossed(es, r, i, m, j, k)
  }

  ghost predicate BumpsArePositive(s: Sys, k: StreamKey) {
    forall id: nat :: id in s.flights && s.flights[id].Advancing? && k in s.flights[id].bumps ==> s.flights[id].bumps[k] > 0
  }

  lemma {:induction false} StepKeepsPositive(s: Sys, r: Resolver, e: Event, k: StreamKey)
    requires BumpsArePositive(s, k) && Enabled(s, e)
    ensures BumpsArePositive(Apply(s, r, e), k)
  {
    hide AppendLine;
    hide TakeSnapshot;
    hide Acknowledge;
    hide Drain;
    hide ReadStep;
    hide WriteStep;
    if e.ReadCursor? || e.WriteCursor? {
      CursorFlight(s, r, e);
    }
  }

  lemma {:induction false} RunKeepsPositive(start: Cursors, r: Resolver, es: seq<Event>, k: StreamKey)
    requires Exec(Start(start), r, es).Some?
    ensures BumpsArePositive(Exec(Start(start), r, es).value, k)
  {
    hide Apply;
    hide Enabled;
    if es != [] {
      hide BumpsArePositive;
      RunKeepsPositive(start, r, es[..|es| - 1], k);
      StepKeepsPositive(Exec(Start(start), r, es[..|es| - 1]).value, r, es[|es| - 1], k);
    }
  }

  /** Flush `id` has read the stream's cursor and not written it. */
  predicate HasRead(s: Sys, id: nat, k: StreamKey) {
    && id in s.flights && s.flights[id].Advancing?
    && s.flights[id].reading.Some? && s.flights[id].reading.value.key == k
  }

  /** That read is the step at `i`. */
  predicate ReadAt(es: seq<Event>, r: Resolver, id: nat, i: nat, k: StreamKey) {
    && i < |es| && Reads(es[i], r, k) && es[i].id == id
    && forall n :: i < n < |es| ==> !CursorStepOf(es[n], id)
  }

  ghost predicate WrittenSince(es: seq<Event>, r: Resolver, i: nat, k: StreamKey) {
    exists m :: i < m < |es| && Writes(es[m], r, k)
  }

  lemma {:induction false} OpenAfter(s: Sys, r: Resolver, e: Event, id: nat, k: StreamKey)
    requires Enabled(s, e) && HasRead(Apply(s, r, e), id, k)
    ensures if Reads(e, r, k) && e.id == id
            then var s' := Apply(s, r, e);
                 && k in r && s'.flights[id].reading.value.offset == CursorOf(s.cursors, r, k) && s'.cursors == s.cursors
            else && HasRead(s, id, k) && Apply(s, r, e).flights[id].reading == s.flights[id].reading
                 && !CursorStepOf(e, id)
  {
    hide AppendLine;
    hide TakeSnapshot;
    hide Acknowledge;
    hide Drain;
    hide Bumps;
    hide At;
    hide OffsetAt;
  }

  /** A write that stores over nothing moves the cursor on; no other step moves it. */
  lemma {:induction false} OnlyWritesMove(s: Sys, r: Resolver, e: Event, k: StreamKey)
    requires DistinctPaths(r) && k in r && Enabled(s, e)
    requires BumpsArePositive(s, k) && Overwrites(s, r, e, k) == 0
    ensures if Writes(e, r, k) then CursorOf(Apply(s, r, e).cursors, r, k) > CursorOf(s.cursors, r, k)
            else CursorOf(Apply(s, r, e).cursors, r, k) == CursorOf(s.cursors, r, k)
  {
    hide AppendLine;
    hide TakeSnapshot;
    hide Acknowledge;
    hide Drain;
    hide Bumps;
    hide At;
    if e.WriteCursor? && e.key in r {
      WrittenCursor(s.cursors, r, e.key, s.flights[e.id].reading.value.offset + s.flights[e.id].bumps[e.key], k);
    }
    hide CursorOf;
  }

  lemma {:induction false} WrittenSinceMore(es: seq<Event>, r: Resolver, e: Event, i: nat, k: StreamKey)
    requires i < |es|
    ensures WrittenSince(es + [e], r, i, k) <==> WrittenSince(es, r, i, k) || Writes(e, r, k)
  {
    var more := es + [e];
    if WrittenSince(es, r, i, k) {
      var m :| i < m < |es| && Writes(es[m], r, k);
      assert more[m] == es[m];
    }
    assert more[|es|] == e;
  }

  lemma {:induction false} ReadAtMore(es: seq<Event>, r: Resolver, e: Event, id: nat, i: nat, k: StreamKey)
    requires ReadAt(es, r, id, i, k) && !CursorStepOf(e, id)
    ensures ReadAt(es + [e], r, id, i, k)
  {
  }

  /** In a run that has stored over nothing, the cursor is past what a flush has read of it if and only
      if some flush has written it since. */
  lemma {:induction false} OpenRead(start: Cursors, r: Resolver, es: seq<Event>, id: nat, k: StreamKey) returns (i: nat)
    requires DistinctPaths(r) && k in r && Exec(Start(start), r, es).Some? && NeverOverwrites(Start(start), r, es, k)
    requires HasRead(Exec(Start(start), r, es).value, id, k)
    ensures ReadAt(es, r, id, i, k)
    ensures var s := Exec(Start(start), r, es).value;
            var offset, cursor := s.flights[id].reading.value.offset, CursorOf(s.cursors, r, k);
            offset <= cursor && (offset < cursor <==> WrittenSince(es, r, i, k))
  {
    hide Apply;
    hide Enabled;
    hide DistinctPaths;
    hide BumpsArePositive;
    hide CursorOf;
    hide Overwrites;
    hide Readable;
    hide Writes;
    hide WrittenSince;
    var init, e := es[..|es| - 1], es[|es| - 1];
    var s := Exec(Start(start), r, init).value;
    assert es == init + [e];
    OpenAfter(s, r, e, id, k);
    if Reads(e, r, k) && e.id == id {
      i := |init|;
      NothingSince(es, r, k);
    } else {
      i := OpenRead(start, r, init, id, k);
      RunKeepsPositive(start, r, init, k);
      OnlyWritesMove(s, r, e, k);
      WrittenSinceMore(init, r, e, i, k);
      ReadAtMore(init, r, e, id, i, k);
    }
  }

  lemma {:induction false} NothingSince(es: seq<Event>, r: Resolver, k: StreamKey)
    requires es != []
    ensures !WrittenSince(es, r, |es| - 1, k)
  {
  }

  lemma {:induction false} CrossedMore(es: seq<Event>, r: Resolver, e: Event, i: nat, m: nat, j: nat, k: StreamKey)
    requires j < |es|
    ensures Crossed(es + [e], r, i, m, j, k) <==> Crossed(es, r, i, m, j, k)
  {
    var more := es + [e];
    assert forall n: nat :: n < |es| ==> more[n] == es[n];
  }

  /** A write is crossed if and only if there was a write since its flush's read. */
  lemma {:induction false} LastIsCrossed(es: seq<Event>, r: Resolver, e: Event, i: nat, k: StreamKey)
    requires Writes(e, r, k) && ReadAt(es, r, e.id, i, k)
    ensures (exists i: nat, m: nat :: Crossed(es + [e], r, i, m, |es|, k)) <==> WrittenSince(es, r, i, k)
  {
    var more := es + [e];
    assert forall n: nat :: n < |es| ==> more[n] == es[n];
    if WrittenSince(es, r, i, k) {
      var m :| i < m < |es| && Writes(es[m], r, k);
      assert !CursorStepOf(es[m], e.id);
      assert Crossed(more, r, i, m, |es|, k);
    }
    if i': nat, m: nat :| Crossed(more, r, i', m, |es|, k) {
      assert CursorStepOf(es[i'], e.id) && CursorStepOf(es[i], e.id);
      assert i' == i;
      assert Writes(es[m], r, k);
    }
  }

  lemma {:induction false} CrossedSoFar(es: seq<Event>, r: Resolver, e: Event, k: StreamKey)
    ensures SomeCrossed(es + [e], r, k) <==>
            SomeCrossed(es, r, k) || exists i: nat, m: nat :: Crossed(es + [e], r, i, m, |es|, k)
  {
    var more := es + [e];
    if i: nat, m: nat, j: nat :| Crossed(es, r, i, m, j, k) {
      CrossedMore(es, r, e, i, m, j, k);
    }
    if i: nat, m: nat, j: nat :| Crossed(more, r, i, m, j, k) {
      if j < |es| {
        CrossedMore(es, r, e, i, m, j, k);
      } else {
        assert j == |es|;
      }
    }
  }

  lemma {:induction false} WriterHasRead(s: Sys, r: Resolver, e: Event, k: StreamKey)
    requires Enabled(s, e) && Writes(e, r, k)
    ensures HasRead(s, e.id, k)
    ensures Overwrites(s, r, e, k) == CursorOf(s.cursors, r, k) - s.flights[e.id].reading.value.offset
  {
  }

  /** In every run, with however many flushes and whatever fails: no write of a stream's cursor stores
      over an advance if and only if none falls between another flush's read and write of it. */
  lemma {:induction false} OverwritesIffCrossed(start: Cursors, r: Resolver, es: seq<Event>, k: StreamKey)
    requires DistinctPaths(r) && k in r && Exec(Start(start), r, es).Some?
    ensures NeverOverwrites(Start(start), r, es, k) <==> !SomeCrossed(es, r, k)
  {
    hide Apply;
    hide Enabled;
    hide DistinctPaths;
    hide CursorOf;
    hide Crossed;
    hide SomeCrossed;
    hide HasRead;
    hide WrittenSince;
    hide ReadAt;
    if es == [] {
      NoneCrossed(r, k);
    } else {
      var init, e := es[..|es| - 1], es[|es| - 1];
      var s := Exec(Start(start), r, init).value;
      assert es == init + [e];
      OverwritesIffCrossed(start, r, init, k);
      CrossedSoFar(init, r, e, k);
      if Writes(e, r, k) {
        hide Writes;
        WriterHasRead(s, r, e, k);
        if NeverOverwrites(Start(start), r, init, k) {
          var i := OpenRead(start, r, init, e.id, k);
          LastIsCrossed(init, r, e, i, k);
        }
      } else {
        OnlyWritesCross(init, r, e, k);
      }
    }
  }

  lemma {:induction false} NoneCrossed(r: Resolver, k: StreamKey)
    ensures !SomeCrossed([], r, k)
  {
  }

  lemma {:induction false} OnlyWritesCross(es: seq<Event>, r: Resolver, e: Event, k: StreamKey)
    requires !Writes(e, r, k)
    ensures forall i: nat, m: nat :: !Crossed(es + [e], r, i, m, |es|, k)
  {
    assert (es + [e])[|es|] == e;
  }

  // ---------------------------------------------------- where the cursor gets to

  /** The bytes of the lines that accepted pushes have carried, each line counted once. */
  function CarriedBytes(obs: seq<Line>, carried: seq<Span>): nat {
    if obs == [] then 0
    else CarriedBytes(obs[..|obs| - 1], carried) + if Covers(carried, |obs| - 1) then obs[|obs| - 1].byteLen else 0
  }

  lemma {:induction false} CarriedPrefixBytes(obs: seq<Line>, carried: seq<Span>, n: nat)
    requires n <= |obs| && forall i: nat :: i < |obs| ==> (Covers(carried, i) <==> i < n)
    ensures CarriedBytes(obs, carried) == Bytes(obs[..n])
  {
    hide Covers;
    if obs != [] {
      var m := |obs| - 1;
      if n == |obs| {
        assert obs[..n][..m] == obs[..m];
        CarriedPrefixBytes(obs[..m], carried, m);
        assert obs[..m][..m] == obs[..m];
      } else {
        CarriedPrefixBytes(obs[..m], carried, n);
        assert obs[..m][..n] == obs[..n];
      }
    }
  }

  /** In every run, serial or not: the stored cursor is ahead of the acknowledged lines if and only if
      the byte counter, the bumps still to be written, the bytes given up and the advances stored over
      fall short of the bytes of the lines that no accepted push has carried. */
  lemma {:induction false} CursorAheadIffCountersFallShort(start: Cursors, r: Resolver, es: seq<Event>, k: StreamKey)
    requires DistinctPaths(r) && k in r && Exec(Start(start), r, es).Some?
    ensures var s, t := Exec(Start(start), r, es).value, Trace(Start(start), r, UNTRACKED, es, k);
            var acknowledged := CarriedBytes(Observed(s, k), t.carried);
            CursorOf(s.cursors, r, k) > CursorOf(start, r, k) + acknowledged <==>
            LiveAt(s.memory, k).bytes + Owed(s.flights, k) + At(s.lost, k, 0) + Overwritten(Start(start), r, es, k)
              < Bytes(Observed(s, k)) - acknowledged
  {
    BytesBalance(start, r, es, k);
    hide Exec;
    hide Trace;
    hide CarriedBytes;
    hide Overwritten;
  }

  // -------------------------------------------- the cursor after two flushes overlap

  lemma {:induction false} OverwrittenSplit(s: Sys, r: Resolver, a: seq<Event>, b: seq<Event>, k: StreamKey)
    requires Exec(s, r, a + b).Some?
    ensures Exec(s, r, a).Some? && Exec(Exec(s, r, a).value, r, b).Some?
    ensures var mid := Exec(s, r, a).value;
            && Overwritten(s, r, a + b, k) == Overwritten(s, r, a, k) + Overwritten(mid, r, b, k)
            && (NeverOverwrites(s, r, a + b, k) <==> NeverOverwrites(s, r, a, k) && NeverOverwrites(mid, r, b, k))
    decreases |b|
  {
    hide Apply;
    hide Enabled;
    hide Overwrites;
    ExecSplit(s, r, a, b);
    if b == [] {
      assert a + b == a;
    } else {
      var init := b[..|b| - 1];
      assert (a + b)[..|a + b| - 1] == a + init;
      OverwrittenSplit(s, r, a, init, k);
      ExecSplit(s, r, a, init);
    }
  }

  /** No write of a serial run stores over anything. */
  lemma {:induction false} SerialOverwritesNothing(start: Cursors, r: Resolver, es: seq<Event>, k: StreamKey)
    requires DistinctPaths(r) && Exec(Start(start), r, es).Some? && Serial(Start(start), r, es)
    ensures NeverOverwrites(Start(start), r, es, k) && Overwritten(Start(start), r, es, k) == 0
  {
    hide Apply;
    hide Enabled;
    hide Overwrites;
    if es != [] {
      var init := es[..|es| - 1];
      SerialOverwritesNothing(start, r, init, k);
      SerialRunInv(start, r, init);
      var s := Exec(Start(start), r, init).value;
      assert ReadsAreCurrent(s, r);
      CurrentReadsOverwriteNothing(s, r, es[|es| - 1], k);
    }
  }

  /** The flush that wrote the stream's cursor last. */
  function LastWriter(es: seq<Event>, r: Resolver, k: StreamKey): Option<nat> {
    if es == [] then None
    else if Writes(es[|es| - 1], r, k) then Some(es[|es| - 1].id)
    else LastWriter(es[..|es| - 1], r, k)
  }

  lemma {:induction false} LastWriterSplit(a: seq<Event>, b: seq<Event>, r: Resolver, k: StreamKey)
    ensures LastWriter(b, r, k).Some? ==> LastWriter(a + b, r, k) == LastWriter(b, r, k)
    decreases |b|
  {
    if b != [] {
      assert (a + b)[..|a + b| - 1] == a + b[..|b| - 1];
      LastWriterSplit(a, b[..|b| - 1], r, k);
    }
  }

  /** Flush `f` is still to move the cursor by `delta`. */
  predicate Left(s: Sys, f: nat, delta: nat, k: StreamKey) {
    && f in s.flights
    && if s.flights[f].Advancing? then k in s.flights[f].bumps && s.flights[f].bumps[k] == delta
       else k in s.flights[f].attempts && s.flights[f].attempts[k].bytes == delta
  }

  /** Flush `f` is done with the stream's cursor. */
  predicate Gone(s: Sys, f: nat, k: StreamKey) {
    f !in s.flights || (s.flights[f].Advancing? && k !in s.flights[f].bumps)
  }

  function Moved(s: Sys, f: nat, delta: nat, k: StreamKey): nat {
    if Gone(s, f, k) then delta else 0
  }

  /** One of two flushes on a cursor that stood at `c0`: the offset it has read is from before or after
      the other's move. */
  predicate Side(s: Sys, c0: int, f: nat, delta: nat, other: int, k: StreamKey) {
    && (Gone(s, f, k) || Left(s, f, delta, k))
    && (HasRead(s, f, k) ==>
          && !Gone(s, f, k)
          && (s.flights[f].reading.value.offset == c0 || s.flights[f].reading.value.offset == c0 + other))
  }

  /** Two flushes on a cursor that stood at `c0`, `over` being stored over so far: that is nothing, or
      all of the move of the one that wrote first. */
  ghost predicate Race(s: Sys, r: Resolver, c0: int, p: nat, dp: nat, q: nat, dq: nat, over: int, last: Option<nat>, k: StreamKey)
    requires k in r
  {
    && p != q && (forall id :: id in s.flights ==> id == p || id == q)
    && Side(s, c0, p, dp, Moved(s, q, dq, k), k) && Side(s, c0, q, dq, Moved(s, p, dp, k), k)
    && CursorOf(s.cursors, r, k) + over == c0 + Moved(s, p, dp, k) + Moved(s, q, dq, k)
    && (over == 0 ||
        (Gone(s, p, k) && Gone(s, q, k) && over > 0 && ((last == Some(q) && over == dp) || (last == Some(p) && over == dq))))
  }

  /** The events of two flushes once both hold the stream: neither a snapshot nor a failed push. */
  predicate Going(e: Event) {
    !e.Begin? && !e.PushFail?
  }

  lemma {:induction false} OthersKeepCursor(s: Sys, r: Resolver, e: Event, k: StreamKey)
    requires DistinctPaths(r) && k in r && Enabled(s, e) && !Writes(e, r, k)
    ensures CursorOf(Apply(s, r, e).cursors, r, k) == CursorOf(s.cursors, r, k) && Overwrites(s, r, e, k) == 0
  {
    hide AppendLine;
    hide TakeSnapshot;
    hide Acknowledge;
    hide Drain;
    hide Bumps;
    hide At;
    if e.WriteCursor? && e.key in r {
      WrittenCursor(s.cursors, r, e.key, s.flights[e.id].reading.value.offset + s.flights[e.id].bumps[e.key], k);
    }
    hide CursorOf;
  }

  lemma {:induction false} QuietCursorSide(s: Sys, r: Resolver, e: Event, f: nat, delta: nat, k: StreamKey)
    requires (e.ReadCursor? || e.WriteCursor?) && k in r && Enabled(s, e) && Going(e) && !Writes(e, r, k)
    requires (e.ReadCursor? || e.WriteCursor?) && e.key == k ==> e.fault == NoFault
    requires (Gone(s, f, k) || Left(s, f, delta, k)) && (HasRead(s, f, k) ==> !Gone(s, f, k))
    ensures var s' := Apply(s, r, e);
            && (Gone(s', f, k) || Left(s', f, delta, k)) && Moved(s', f, delta, k) == Moved(s, f, delta, k)
            && (HasRead(s', f, k) ==>
                  && !Gone(s', f, k) && !Gone(s, f, k)
                  && ((HasRead(s, f, k) && s'.flights[f].reading == s.flights[f].reading) ||
                      s'.flights[f].reading.value.offset == CursorOf(s.cursors, r, k)))
  {
    if e.id == f {
      hide At;
      hide OffsetAt;
    } else {
      CursorFlight(s, r, e);
      hide Apply;
    }
  }

  /** A step that does not write the cursor, as one flush sees it. */
  lemma {:induction false} QuietSide(s: Sys, r: Resolver, e: Event, f: nat, delta: nat, k: StreamKey)
    requires k in r && Enabled(s, e) && Going(e) && !Writes(e, r, k)
    requires (e.ReadCursor? || e.WriteCursor?) && e.key == k ==> e.fault == NoFault
    requires (Gone(s, f, k) || Left(s, f, delta, k)) && (HasRead(s, f, k) ==> !Gone(s, f, k))
    ensures var s' := Apply(s, r, e);
            && (Gone(s', f, k) || Left(s', f, delta, k)) && Moved(s', f, delta, k) == Moved(s, f, delta, k)
            && (HasRead(s', f, k) ==>
                  && !Gone(s', f, k) && !Gone(s, f, k)
                  && ((HasRead(s, f, k) && s'.flights[f].reading == s.flights[f].reading) ||
                      s'.flights[f].reading.value.offset == CursorOf(s.cursors, r, k)))
  {
    if e.ReadCursor? || e.WriteCursor? {
      hide Apply;
      hide Gone;
      hide Left;
      hide HasRead;
      QuietCursorSide(s, r, e, f, delta, k);
    } else {
      hide AppendLine;
      hide Acknowledge;
      hide Drain;
      hide CursorOf;
    }
  }

  /** A write of the cursor, as its flush sees it. */
  lemma {:induction false} WritingSide(s: Sys, r: Resolver, e: Event, f: nat, delta: nat, k: StreamKey)
    requires DistinctPaths(r) && Enabled(s, e) && Writes(e, r, k) && e.id == f
    requires Gone(s, f, k) || Left(s, f, delta, k)
    ensures var s' := Apply(s, r, e);
            && !Gone(s, f, k) && HasRead(s, f, k) && Gone(s', f, k) && !HasRead(s', f, k)
            && CursorOf(s'.cursors, r, k) == s.flights[f].reading.value.offset + delta
            && Overwrites(s, r, e, k) == CursorOf(s.cursors, r, k) - s.flights[f].reading.value.offset
  {
    hide At;
  }

  /** And as the other sees it. */
  lemma {:induction false} WaitingSide(s: Sys, r: Resolver, e: Event, g: nat, delta: nat, k: StreamKey)
    requires Enabled(s, e) && Writes(e, r, k) && e.id != g && (Gone(s, g, k) || Left(s, g, delta, k))
    ensures var s' := Apply(s, r, e);
            && (Gone(s', g, k) <==> Gone(s, g, k)) && (Left(s', g, delta, k) <==> Left(s, g, delta, k))
            && (HasRead(s', g, k) <==> HasRead(s, g, k))
            && (HasRead(s', g, k) ==> s'.flights[g].reading == s.flights[g].reading)
  {
    CursorFlight(s, r, e);
    hide Apply;
  }

  lemma {:induction false} QuietRace(s: Sys, r: Resolver, e: Event, c0: int, p: nat, dp: nat, q: nat, dq: nat, over: int,
                                     last: Option<nat>, k: StreamKey)
    requires DistinctPaths(r) && k in r && Enabled(s, e) && Going(e) && !Writes(e, r, k)
    requires (e.ReadCursor? || e.WriteCursor?) && e.key == k ==> e.fault == NoFault
    requires Race(s, r, c0, p, dp, q, dq, over, last, k)
    ensures Race(Apply(s, r, e), r, c0, p, dp, q, dq, over, last, k) && Overwrites(s, r, e, k) == 0
  {
    hide HasRead;
    hide Left;
    hide Gone;
    hide CursorOf;
    hide DistinctPaths;
    hide Overwrites;
    hide Writes;
    QuietSide(s, r, e, p, dp, k);
    QuietSide(s, r, e, q, dq, k);
    OthersKeepCursor(s, r, e, k);
    FewerFlights(s, r, e);
    if Gone(s, p, k) && Gone(s, q, k) {
      StaysGone(s, r, e, p, dp, k);
      StaysGone(s, r, e, q, dq, k);
    }
    hide Apply;
    hide Enabled;
  }

  lemma {:induction false} StaysGone(s: Sys, r: Resolver, e: Event, f: nat, delta: nat, k: StreamKey)
    requires Enabled(s, e) && Going(e) && Gone(s, f, k)
    ensures Gone(Apply(s, r, e), f, k)
  {
    hide AppendLine;
    hide Acknowledge;
    hide Drain;
    hide At;
    hide OffsetAt;
  }

  lemma {:induction false} FewerFlights(s: Sys, r: Resolver, e: Event)
    requires Enabled(s, e) && Going(e)
    ensures Apply(s, r, e).flights.Keys <= s.flights.Keys
  {
    hide AppendLine;
    hide Acknowledge;
    hide Drain;
    hide At;
    hide OffsetAt;
  }

  /** One of the two, `f`, writes the cursor. If the other wrote since `f`'s read, all of its move is
      stored over. */
  lemma {:induction false} WriteBy(s: Sys, r: Resolver, e: Event, c0: int, f: nat, df: nat, g: nat, dg: nat, k: StreamKey)
    requires DistinctPaths(r) && Enabled(s, e) && Writes(e, r, k) && e.id == f != g
    requires Side(s, c0, f, df, Moved(s, g, dg, k), k) && Side(s, c0, g, dg, Moved(s, f, df, k), k)
    requires !Gone(s, f, k) ==> CursorOf(s.cursors, r, k) == c0 + Moved(s, f, df, k) + Moved(s, g, dg, k)
    ensures var s', over := Apply(s, r, e), Overwrites(s, r, e, k);
            && !Gone(s, f, k) && Gone(s', f, k)
            && Side(s', c0, f, df, Moved(s', g, dg, k), k) && Side(s', c0, g, dg, Moved(s', f, df, k), k)
            && CursorOf(s'.cursors, r, k) + over == c0 + Moved(s', f, df, k) + Moved(s', g, dg, k)
            && (over == 0 || (Gone(s', g, k) && over == dg > 0))
  {
    WritingSide(s, r, e, f, df, k);
    WaitingSide(s, r, e, g, dg, k);
    hide HasRead;
    hide Left;
    hide Gone;
    hide CursorOf;
    hide DistinctPaths;
    hide Overwrites;
    hide Writes;
    hide Apply;
    hide Enabled;
  }

  lemma {:induction false} WriteRace(s: Sys, r: Resolver, e: Event, c0: int, p: nat, dp: nat, q: nat, dq: nat, over: int,
                                     last: Option<nat>, k: StreamKey)
    requires DistinctPaths(r) && k in r && Enabled(s, e) && Writes(e, r, k) && Race(s, r, c0, p, dp, q, dq, over, last, k)
    ensures over == 0 && Race(Apply(s, r, e), r, c0, p, dp, q, dq, Overwrites(s, r, e, k), Some(e.id), k)
  {
    assert e.id == p || e.id == q;
    FewerFlights(s, r, e);
    hide Side;
    hide Moved;
    hide Gone;
    hide CursorOf;
    hide DistinctPaths;
    hide Overwrites;
    hide Apply;
    if e.id == p {
      WriteBy(s, r, e, c0, p, dp, q, dq, k);
    } else {
      WriteBy(s, r, e, c0, q, dq, p, dp, k);
    }
  }

  /** What a run of two flushes stores over: nothing, or all of the first to write. */
  lemma {:induction false} RaceRun(s: Sys, r: Resolver, w: seq<Event>, c0: int, p: nat, dp: nat, q: nat, dq: nat, k: StreamKey)
    requires DistinctPaths(r) && k in r && Race(s, r, c0, p, dp, q, dq, 0, None, k)
    requires Exec(s, r, w).Some? && FaultFree(w, k) && forall e :: e in w ==> Going(e)
    ensures var over := Overwritten(s, r, w, k);
            && Race(Exec(s, r, w).value, r, c0, p, dp, q, dq, over, LastWriter(w, r, k), k)
            && (NeverOverwrites(s, r, w, k) <==> over == 0)
  {
    hide DistinctPaths;
    hide Race;
    hide Apply;
    hide Enabled;
    hide Overwrites;
    hide Going;
    if w != [] {
      var init, e := w[..|w| - 1], w[|w| - 1];
      assert e in w && forall d :: d in init ==> d in w;
      RaceRun(s, r, init, c0, p, dp, q, dq, k);
      var s1 := Exec(s, r, init).value;
      if Writes(e, r, k) {
        WriteRace(s1, r, e, c0, p, dp, q, dq, Overwritten(s, r, init, k), LastWriter(init, r, k), k);
      } else {
        QuietRace(s1, r, e, c0, p, dp, q, dq, Overwritten(s, r, init, k), LastWriter(init, r, k), k);
      }
    }
  }

  lemma {:induction false} RaceEnds(s: Sys, r: Resolver, c0: int, p: nat, dp: nat, q: nat, dq: nat, over: int,
                                    last: Option<nat>, k: StreamKey)
    requires k in r && Race(s, r, c0, p, dp, q, dq, over, last, k)
    ensures p != q && (over != 0 ==> over > 0 && ((last == Some(q) && over == dp) || (last == Some(p) && over == dq)))
  {
    hide Side;
  }

  /** Both flushes hold the stream, and neither has come to its cursor. */
  lemma {:induction false} RaceBegins(s0: Sys, t0: Track, r: Resolver, p: nat, q: nat, dp: nat, dq: nat, k: StreamKey)
    requires k in r && TrackInv(s0, t0, k) && SerialTrack(s0, t0) && Holds(s0, p, k) && p in t0.spans && Enabled(s0, Begin(q))
    requires forall i, j :: i in s0.flights && j in s0.flights ==> i == j
    requires s0.flights[p].attempts[k].bytes == dp && LiveAt(s0.memory, k).bytes == dq
    ensures Race(Apply(s0, r, Begin(q)), r, CursorOf(s0.cursors, r, k), p, dp, q, dq, 0, None, k)
  {
    BothHold(s0, t0, r, p, q, k);
    hide TrackInv;
    hide SerialTrack;
    hide TakeSnapshot;
    hide CursorOf;
    var s1 := Apply(s0, r, Begin(q));
    assert forall id :: id in s1.flights ==> id == p || id == q;
    assert s1.cursors == s0.cursors;
  }

  lemma {:induction false} ScheduleGoes(x: seq<Event>, a: nat, y: seq<Event>, b: nat, z: seq<Event>)
    requires AllPassive(x) && AllPassive(y) && AllPassive(z)
    ensures forall e :: e in x + ([DrainNow(a)] + (y + [DrainNow(b)])) + z ==> Going(e)
  {
  }

  /** The advances stored over by the schedule and its cursor writes. */
  lemma {:induction false} ScheduleOverwrites(
    start: Cursors, r: Resolver, es: seq<Event>, p: nat, q: nat, w: seq<Event>, dp: nat, dq: nat, k: StreamKey)
    requires DistinctPaths(r) && k in r && Exec(Start(start), r, es).Some? && Serial(Start(start), r, es)
    requires Holds(Exec(Start(start), r, es).value, p, k) && Exec(Start(start), r, es + ([Begin(q)] + w)).Some?
    requires FaultFree(w, k) && forall e :: e in w ==> Going(e)
    requires Exec(Start(start), r, es).value.flights[p].attempts[k].bytes == dp
    requires LiveAt(Exec(Start(start), r, es).value.memory, k).bytes == dq
    ensures var all := es + ([Begin(q)] + w);
            var over, last := Overwritten(Start(start), r, all, k), LastWriter(all, r, k);
            && p != q && (over == 0 <==> !SomeCrossed(all, r, k))
            && (over != 0 ==> over > 0 && ((last == Some(q) && over == dp) || (last == Some(p) && over == dq)))
  {
    var s0, t0 := Exec(Start(start), r, es).value, Trace(Start(start), r, UNTRACKED, es, k);
    var all := es + ([Begin(q)] + w);
    SerialBytes(start, r, es, p, k);
    SerialOverwritesNothing(start, r, es, k);
    OverwritesIffCrossed(start, r, all, k);
    OverwrittenSplit(Start(start), r, es, [Begin(q)] + w, k);
    OverwrittenSplit(s0, r, [Begin(q)], w, k);
    TraceOne(s0, r, t0, Begin(q), k);
    BeginOverwritesNothing(s0, r, q, k);
    LastWriterSplit(es + [Begin(q)], w, r, k);
    assert es + [Begin(q)] + w == all;
    hide TrackInv;
    hide SerialTrack;
    hide Serial;
    hide Exec;
    hide Trace;
    hide Apply;
    hide Race;
    hide DistinctPaths;
    hide FaultFree;
    hide SomeCrossed;
    hide Going;
    var s1, c0 := Apply(s0, r, Begin(q)), CursorOf(s0.cursors, r, k);
    RaceBegins(s0, t0, r, p, q, dp, dq, k);
    RaceRun(s1, r, w, c0, p, dp, q, dq, k);
    RaceEnds(Exec(s1, r, w).value, r, c0, p, dp, q, dq, Overwritten(s1, r, w, k), LastWriter(w, r, k), k);
  }

  lemma {:induction false} BeginOverwritesNothing(s: Sys, r: Resolver, q: nat, k: StreamKey)
    requires Exec(s, r, [Begin(q)]).Some?
    ensures Overwritten(s, r, [Begin(q)], k) == 0 && NeverOverwrites(s, r, [Begin(q)], k)
  {
    assert [Begin(q)][..0] == [];
    assert Exec(s, r, []) == Some(s) && Overwritten(s, r, [], k) == 0 && NeverOverwrites(s, r, [], k);
    hide Apply;
  }

  lemma {:induction false} AfterScheduleAndMore(
    s0: Sys, t0: Track, r: Resolver, p: nat, q: nat, x: seq<Event>, a: nat, y: seq<Event>, b: nat, z: seq<Event>, k: StreamKey)
    requires TrackInv(s0, t0, k) && SerialTrack(s0, t0) && Holds(s0, p, k) && p in t0.spans
    requires t0.spans[p].from == t0.dropped && t0.spans[p].to <= |Observed(s0, k)|
    requires forall i, j :: i in s0.flights && j in s0.flights ==> i == j
    requires s0.flights[p].attempts[k].bytes >= 0 && LiveAt(s0.memory, k).bytes >= 0
    requires AllPassive(x) && AllPassive(y) && AllPassive(z) && Exec(s0, r, Schedule(q, x, a, y, b) + z).Some?
    requires (a == p && b == q) || (a == q && b == p)
    ensures var s, t := Exec(s0, r, Schedule(q, x, a, y, b) + z).value, Trace(s0, r, t0, Schedule(q, x, a, y, b) + z, k);
            && CarriedBytes(Observed(s, k), t.carried) == Bytes(Observed(s0, k))
            && LiveAt(s.memory, k).bytes == Bytes(Observed(s, k)) - Bytes(Observed(s0, k)) - s0.flights[p].attempts[k].bytes
  {
    var sch := Schedule(q, x, a, y, b);
    OnlySpan(s0, t0, p, k);
    ExecSplit(s0, r, sch, z);
    TraceSplit(s0, r, t0, sch, z, k);
    hide TrackInv;
    hide Exec;
    hide Trace;
    hide Schedule;
    hide Bytes;
    hide Passive;
    hide SerialTrack;
    hide Passed;
    hide History;
    AfterSchedule(s0, t0, r, p, q, x, a, y, b, k);
    var s5, t5 := Exec(s0, r, sch).value, Trace(s0, r, t0, sch, k);
    CarriedUpToSecondSnapshot(t0, t5, s0, p, |Observed(s0, k)|);
    PassiveRun(s5, t5, r, z, k);
    var s, t := Exec(s5, r, z).value, Trace(s5, r, t5, z, k);
    NothingNewCarried(s5, t5, r, z, s, t, t0, s0, p, |Observed(s0, k)|, k);
    PassedObserves(s5, t5, s, t, History(z, k), k);
    hide Covers;
    hide Follow;
    CountsInTheEnd(Observed(s0, k), History(x, k), History(y, k), History(z, k), t.carried);
    assert Observed(s, k) == Observed(s0, k) + (History(x, k) + History(y, k)) + History(z, k);
  }

  lemma {:induction false} CountsInTheEnd(obs: seq<Line>, x: seq<Line>, y: seq<Line>, z: seq<Line>, carried: seq<Span>)
    requires forall i: nat :: Covers(carried, i) <==> i < |obs|
    ensures var all := obs + (x + y) + z;
            CarriedBytes(all, carried) == Bytes(obs) && Bytes(all) == Bytes(obs) + Bytes(x) + Bytes(y) + Bytes(z)
  {
    hide Covers;
    hide Bytes;
    hide CarriedBytes;
    var all := obs + (x + y) + z;
    BytesAppend(x, y);
    BytesAppend(obs, x + y);
    BytesAppend(obs + (x + y), z);
    assert all[..|obs|] == obs;
    CarriedPrefixBytes(all, carried, |obs|);
  }

  lemma {:induction false} NothingNewCarried(s5: Sys, t5: Track, r: Resolver, z: seq<Event>, s: Sys, t: Track,
                                             t0: Track, s0: Sys, p: nat, n: nat, k: StreamKey)
    requires TrackInv(s5, t5, k) && Passed(s5, t5, s, t, History(z, k), k) && t5.spans == map[]
    requires forall i: nat :: Covers(t5.carried, i) <==> i < n
    ensures forall i: nat :: Covers(t.carried, i) <==> i < n
  {
    forall i: nat ensures Covers(t.carried, i) <==> i < n {
      SameCover(t5.carried, t.carried, i);
      SameCover(t.carried, t5.carried, i);
    }
  }

  lemma {:induction false} FaultFreePart(a: seq<Event>, b: seq<Event>, k: StreamKey)
    requires FaultFree(a, k) && forall e :: e in b ==> e in a
    ensures FaultFree(b, k)
  {
  }

  /** Where the cursor gets to, by what was stored over. */
  lemma {:induction false} OverlapBalances(
    start: Cursors, r: Resolver, es: seq<Event>, p: nat, q: nat, x: seq<Event>, a: nat, y: seq<Event>, b: nat, z: seq<Event>,
    k: StreamKey)
    requires DistinctPaths(r) && k in r && Exec(Start(start), r, es).Some? && Serial(Start(start), r, es)
    requires Holds(Exec(Start(start), r, es).value, p, k)
    requires AllPassive(x) && AllPassive(y) && AllPassive(z) && FaultFree(es + (Schedule(q, x, a, y, b) + z), k)
    requires (a == p && b == q) || (a == q && b == p)
    requires Exec(Start(start), r, es + (Schedule(q, x, a, y, b) + z)).Some?
    requires Exec(Start(start), r, es + (Schedule(q, x, a, y, b) + z)).value.flights == map[]
    ensures var all := es + (Schedule(q, x, a, y, b) + z);
            var s, t := Exec(Start(start), r, all).value, Trace(Start(start), r, UNTRACKED, all, k);
            var s0 := Exec(Start(start), r, es).value;
            && CarriedBytes(Observed(s, k), t.carried) == Bytes(Observed(s0, k))
            && CursorOf(s.cursors, r, k) + Overwritten(Start(start), r, all, k) ==
               CursorOf(start, r, k) + Bytes(Observed(s0, k)) + s0.flights[p].attempts[k].bytes
  {
    var sch := Schedule(q, x, a, y, b);
    var s0, t0 := Exec(Start(start), r, es).value, Trace(Start(start), r, UNTRACKED, es, k);
    SerialBytes(start, r, es, p, k);
    BytesBalance(start, r, es + (sch + z), k);
    NothingGivenUp(Start(start), r, es + (sch + z), k);
    ExecSplit(Start(start), r, es, sch + z);
    TraceSplit(Start(start), r, UNTRACKED, es, sch + z, k);
    hide TrackInv;
    hide Exec;
    hide Trace;
    hide Schedule;
    hide Serial;
    hide Bytes;
    hide Passive;
    hide SerialTrack;
    hide FaultFree;
    hide Overwritten;
    hide CarriedBytes;
    hide DistinctPaths;
    AfterScheduleAndMore(s0, t0, r, p, q, x, a, y, b, z, k);
  }

  /** What was stored over, and by whom. */
  lemma {:induction false} OverlapOverwrites(
    start: Cursors, r: Resolver, es: seq<Event>, p: nat, q: nat, x: seq<Event>, a: nat, y: seq<Event>, b: nat, z: seq<Event>,
    k: StreamKey)
    requires DistinctPaths(r) && k in r && Exec(Start(start), r, es).Some? && Serial(Start(start), r, es)
    requires Holds(Exec(Start(start), r, es).value, p, k)
    requires AllPassive(x) && AllPassive(y) && AllPassive(z) && FaultFree(es + (Schedule(q, x, a, y, b) + z), k)
    requires Exec(Start(start), r, es + (Schedule(q, x, a, y, b) + z)).Some?
    requires Exec(Start(start), r, es).value.flights[p].attempts[k].bytes >= 0
    requires LiveAt(Exec(Start(start), r, es).value.memory, k).bytes >= 0
    ensures var all, s0 := es + (Schedule(q, x, a, y, b) + z), Exec(Start(start), r, es).value;
            var over, last := Overwritten(Start(start), r, all, k), LastWriter(all, r, k);
            && p != q && (over == 0 <==> !SomeCrossed(all, r, k))
            && (over != 0 ==> || (last == Some(q) && over == s0.flights[p].attempts[k].bytes)
                              || (last == Some(p) && over == LiveAt(s0.memory, k).bytes))
  {
    hide Exec;
    hide Serial;
    hide Going;
    hide Passive;
    hide FaultFree;
    hide DistinctPaths;
    hide SomeCrossed;
    hide LastWriter;
    hide Overwritten;
    var w := x + ([DrainNow(a)] + (y + [DrainNow(b)])) + z;
    var all := es + (Schedule(q, x, a, y, b) + z);
    assert all == es + ([Begin(q)] + w);
    FaultFreePart(all, w, k);
    ScheduleGoes(x, a, y, b, z);
    var s0 := Exec(Start(start), r, es).value;
    ScheduleOverwrites(start, r, es, p, q, w, s0.flights[p].attempts[k].bytes, LiveAt(s0.memory, k).bytes, k);
  }

  /** A serial run, a second flush that begins while one holds the stream, and all their cursor steps,
      none failing; `obs` is what had been observed when the second began. Unless one flush's write
      falls between the other's read and write, the cursor moves past the acknowledged lines by the
      bytes of the lines both held. Otherwise the last to write decides where it stays: at the
      acknowledged lines, or behind them. */
  lemma {:induction false} OverlapLeavesCursor(
    start: Cursors, r: Resolver, es: seq<Event>, p: nat, q: nat, x: seq<Event>, a: nat, y: seq<Event>, b: nat, z: seq<Event>,
    k: StreamKey)
    requires DistinctPaths(r) && k in r && Exec(Start(start), r, es).Some? && Serial(Start(start), r, es)
    requires Holds(Exec(Start(start), r, es).value, p, k)
    requires AllPassive(x) && AllPassive(y) && AllPassive(z) && FaultFree(es + (Schedule(q, x, a, y, b) + z), k)
    requires (a == p && b == q) || (a == q && b == p)
    requires Exec(Start(start), r, es + (Schedule(q, x, a, y, b) + z)).Some?
    requires Exec(Start(start), r, es + (Schedule(q, x, a, y, b) + z)).value.flights == map[]
    ensures var all := es + (Schedule(q, x, a, y, b) + z);
            var s, t := Exec(Start(start), r, all).value, Trace(Start(start), r, UNTRACKED, all, k);
            var obs, t0 := Observed(Exec(Start(start), r, es).value, k), Trace(Start(start), r, UNTRACKED, es, k);
            && p in t0.spans && t0.dropped < t0.spans[p].to <= |obs|
            && var first, both := Bytes(obs[..t0.spans[p].to]), Bytes(obs[..t0.spans[p].to]) - Bytes(obs[..t0.dropped]);
            && CarriedBytes(Observed(s, k), t.carried) == Bytes(obs) >= first
            && CursorOf(s.cursors, r, k) == CursorOf(start, r, k) +
               (if !SomeCrossed(all, r, k) then Bytes(obs) + both
                else if LastWriter(all, r, k) == Some(q) then Bytes(obs)
                else first)
            && (SomeCrossed(all, r, k) ==> LastWriter(all, r, k) == Some(p) || LastWriter(all, r, k) == Some(q))
            && (CursorOf(s.cursors, r, k) > CursorOf(start, r, k) + CarriedBytes(Observed(s, k), t.carried) <==>
                !SomeCrossed(all, r, k) && both > 0)
  {
    hide TrackInv;
    hide Exec;
    hide Trace;
    hide Schedule;
    hide Serial;
    hide Bytes;
    hide Passive;
    hide SerialTrack;
    hide FaultFree;
    hide SomeCrossed;
    hide LastWriter;
    hide Overwritten;
    hide CarriedBytes;
    hide Holds;
    hide DistinctPaths;
    var s0, t0 := Exec(Start(start), r, es).value, Trace(Start(start), r, UNTRACKED, es, k);
    var obs := Observed(s0, k);
    SerialBytes(start, r, es, p, k);
    BytesPrefix(obs, t0.spans[p].to, |obs|);
    BytesPrefix(obs, t0.dropped, t0.spans[p].to);
    assert obs[..|obs|] == obs;
    OverlapBalances(start, r, es, p, q, x, a, y, b, z, k);
    OverlapOverwrites(start, r, es, p, q, x, a, y, b, z, k);
  }

  // ------------------------------------------------------------- a lost update

  /** Two flushes snapshot one stream, a line arriving between, are both accepted and drain. */
  function TwoFlushes(k: StreamKey, a: Line, b: Line): seq<Event> {
    [Observe(k, a), Begin(1), Observe(k, b), Begin(2), PushOk(1), PushOk(2), DrainNow(1), DrainNow(2)]
  }

  /** Both read the cursor, and then flush `f` writes it before flush `g`. */
  function BothReadFirst(k: StreamKey, f: nat, g: nat): seq<Event> {
    [ReadCursor(1, k, NoFault), ReadCursor(2, k, NoFault), WriteCursor(f, k, NoFault), WriteCursor(g, k, NoFault),
     Finish(1), Finish(2)]
  }

  function OneAttempt(k: StreamKey, entries: seq<Entry>, bytes: nat): map<StreamKey, Attempt> {
    map[k := Attempt(entries, bytes)]
  }

  /** A sink with one stream. */
  function OneStream(k: StreamKey, lines: seq<Line>, entries: seq<Entry>, bytes: nat, flights: map<nat, Flight>): Sys {
    Sys(map[k := Live(entries, bytes)], flights, map[], map[k := lines], map[], map[])
  }

  lemma {:induction false} FirstLine(k: StreamKey, a: Line, r: Resolver)
    ensures Apply(Start(map[]), r, Observe(k, a)) == OneStream(k, [a], [a.entry], a.byteLen, map[])
  {
    var s: Sys := Start(map[]);
    assert At(s.observed, k, []) + [a] == [a] && LiveAt(s.memory, k).entries + [a.entry] == [a.entry];
  }

  lemma {:induction false} NextLine(k: StreamKey, a: Line, b: Line, r: Resolver, flights: map<nat, Flight>)
    ensures Apply(OneStream(k, [a], [a.entry], a.byteLen, flights), r, Observe(k, b)) ==
            OneStream(k, [a, b], [a.entry, b.entry], a.byteLen + b.byteLen, flights)
  {
    assert [a] + [b] == [a, b] && [a.entry] + [b.entry] == [a.entry, b.entry];
  }

  lemma {:induction false} OneTaken(k: StreamKey, lines: seq<Line>, entries: seq<Entry>, bytes: nat, flights: map<nat, Flight>,
                                    r: Resolver, id: nat)
    requires id !in flights && entries != []
    ensures var s := OneStream(k, lines, entries, bytes, flights);
            && Enabled(s, Begin(id))
            && Apply(s, r, Begin(id)) ==
               OneStream(k, lines, entries, bytes, flights[id := Pushing(OneAttempt(k, entries, bytes))])
  {
    assert TakeSnapshot(map[k := Live(entries, bytes)]) == OneAttempt(k, entries, bytes);
    assert k in OneAttempt(k, entries, bytes);
    hide TakeSnapshot;
  }

  lemma {:induction false} TwoSnapshots(k: StreamKey, a: Line, b: Line, r: Resolver)
    ensures var first, both := OneAttempt(k, [a.entry], a.byteLen), OneAttempt(k, [a.entry, b.entry], a.byteLen + b.byteLen);
            Exec(Start(map[]), r, [Observe(k, a), Begin(1), Observe(k, b), Begin(2)]) ==
            Some(OneStream(k, [a, b], [a.entry, b.entry], a.byteLen + b.byteLen,
                           map[1 := Pushing(first), 2 := Pushing(both)]))
  {
    var s0 := Start(map[]);
    assert Exec(s0, r, []) == Some(s0);
    hide Exec;
    hide Serial;
    hide Apply;
    hide OneStream;
    hide OneAttempt;
    var flight: map<nat, Flight> := map[1 := Pushing(OneAttempt(k, [a.entry], a.byteLen))];
    var none: map<nat, Flight> := map[];
    FirstLine(k, a, r);
    ExecStep(s0, r, [], Observe(k, a));
    assert [] + [Observe(k, a)] == [Observe(k, a)];
    OneTaken(k, [a], [a.entry], a.byteLen, map[], r, 1);
    assert none[1 := Pushing(OneAttempt(k, [a.entry], a.byteLen))] == flight;
    ExecStep(s0, r, [Observe(k, a)], Begin(1));
    assert [Observe(k, a)] + [Begin(1)] == [Observe(k, a), Begin(1)];
    NextLine(k, a, b, r, flight);
    ExecStep(s0, r, [Observe(k, a), Begin(1)], Observe(k, b));
    assert [Observe(k, a), Begin(1)] + [Observe(k, b)] == [Observe(k, a), Begin(1), Observe(k, b)];
    OneTaken(k, [a, b], [a.entry, b.entry], a.byteLen + b.byteLen, flight, r, 2);
    ExecStep(s0, r, [Observe(k, a), Begin(1), Observe(k, b)], Begin(2));
    assert [Observe(k, a), Begin(1), Observe(k, b)] + [Begin(2)] == [Observe(k, a), Begin(1), Observe(k, b), Begin(2)];
    var both := Pushing(OneAttempt(k, [a.entry, b.entry], a.byteLen + b.byteLen));
    assert flight[2 := both] == map[1 := Pushing(OneAttempt(k, [a.entry], a.byteLen)), 2 := both];
  }

  /** A flush whose push is accepted. */
  lemma {:induction false} PushOne(s: Sys, r: Resolver, id: nat)
    requires Enabled(s, PushOk(id))
    ensures var s' := Apply(s, r, PushOk(id));
            s'.flights == s.flights[id := Delivered(s.flights[id].attempts)] && s'.cursors == s.cursors
  {
    hide Acknowledge;
  }

  lemma {:induction false} DrainOne(s: Sys, r: Resolver, id: nat, k: StreamKey, entries: seq<Entry>, bytes: nat)
    requires Enabled(s, DrainNow(id)) && s.flights[id].attempts == OneAttempt(k, entries, bytes) && bytes > 0
    ensures var s' := Apply(s, r, DrainNow(id));
            s'.flights == s.flights[id := Advancing(map[k := bytes], None)] && s'.cursors == s.cursors
  {
    hide Drain;
    assert Bumps(OneAttempt(k, entries, bytes)) == map[k := bytes];
    hide Bumps;
    hide OneAttempt;
  }

  lemma {:induction false} TwoDrains(k: StreamKey, a: Line, b: Line, r: Resolver) returns (s: Sys)
    requires a.byteLen > 0
    ensures Exec(Start(map[]), r, TwoFlushes(k, a, b)) == Some(s) && s.cursors == map[]
    ensures s.flights == map[1 := Advancing(map[k := a.byteLen], None), 2 := Advancing(map[k := a.byteLen + b.byteLen], None)]
  {
    hide Exec;
    hide Serial;
    hide Apply;
    hide OneAttempt;
    TwoSnapshots(k, a, b, r);
    var s0, es := Start(map[]), [Observe(k, a), Begin(1), Observe(k, b), Begin(2)];
    s := Exec(s0, r, es).value;
    ExecStep(s0, r, es, PushOk(1));
    PushOne(s, r, 1);
    s := Apply(s, r, PushOk(1));
    ExecStep(s0, r, es + [PushOk(1)], PushOk(2));
    PushOne(s, r, 2);
    s := Apply(s, r, PushOk(2));
    ExecStep(s0, r, es + [PushOk(1)] + [PushOk(2)], DrainNow(1));
    DrainOne(s, r, 1, k, [a.entry], a.byteLen);
    s := Apply(s, r, DrainNow(1));
    ExecStep(s0, r, es + [PushOk(1)] + [PushOk(2)] + [DrainNow(1)], DrainNow(2));
    DrainOne(s, r, 2, k, [a.entry, b.entry], a.byteLen + b.byteLen);
    s := Apply(s, r, DrainNow(2));
    assert es + [PushOk(1)] + [PushOk(2)] + [DrainNow(1)] + [DrainNow(2)] == TwoFlushes(k, a, b);
  }

  /** One flush reads the cursor of its only bump. */
  lemma {:induction false} ReadOne(s: Sys, r: Resolver, id: nat, k: StreamKey, n: nat)
    requires k in r && id in s.flights && s.flights[id] == Advancing(map[k := n], None)
    ensures Enabled(s, ReadCursor(id, k, NoFault))
    ensures var s' := Apply(s, r, ReadCursor(id, k, NoFault));
            && s'.flights == s.flights[id := Advancing(map[k := n], Some(Reading(k, CursorOf(s.cursors, r, k))))]
            && s'.cursors == s.cursors
  {
  }

  lemma {:induction false} WriteOne(s: Sys, r: Resolver, id: nat, k: StreamKey, n: nat, offset: int)
    requires k in r && id in s.flights && s.flights[id] == Advancing(map[k := n], Some(Reading(k, offset)))
    ensures Enabled(s, WriteCursor(id, k, NoFault))
    ensures var s' := Apply(s, r, WriteCursor(id, k, NoFault));
            s'.flights == s.flights[id := Advancing(map[], None)] && CursorOf(s'.cursors, r, k) == offset + n
  {
    assert map[k := n] - {k} == map[];
  }

  lemma {:induction false} FinishOne(s: Sys, r: Resolver, id: nat)
    requires id in s.flights && s.flights[id] == Advancing(map[], None)
    ensures Enabled(s, Finish(id))
    ensures var s' := Apply(s, r, Finish(id)); s'.flights == s.flights - {id} && s'.cursors == s.cursors
  {
  }

  lemma {:induction false} TwoReads(s: Sys, r: Resolver, k: StreamKey, m: nat, n: nat)
    requires k in r && s.flights == map[1 := Advancing(map[k := m], None), 2 := Advancing(map[k := n], None)]
    ensures var es := [ReadCursor(1, k, NoFault), ReadCursor(2, k, NoFault)];
            var read := Some(Reading(k, CursorOf(s.cursors, r, k)));
            && Exec(s, r, es).Some? && Exec(s, r, es).value.cursors == s.cursors
            && Exec(s, r, es).value.flights == map[1 := Advancing(map[k := m], read), 2 := Advancing(map[k := n], read)]
  {
    hide Apply;
    hide Enabled;
    hide CursorOf;
    ReadOne(s, r, 1, k, m);
    ReadOne(Apply(s, r, ReadCursor(1, k, NoFault)), r, 2, k, n);
    TwoSteps(s, r, ReadCursor(1, k, NoFault), ReadCursor(2, k, NoFault));
  }

  /** Flush `f` writes, of which the bump is `m`, and then flush `g`, of which it is `n`. */
  lemma {:induction false} TwoWrites(s: Sys, r: Resolver, k: StreamKey, f: nat, m: nat, g: nat, n: nat, offset: int)
    requires k in r && f != g
    requires s.flights == map[f := Advancing(map[k := m], Some(Reading(k, offset))), g := Advancing(map[k := n], Some(Reading(k, offset)))]
    ensures var es := [WriteCursor(f, k, NoFault), WriteCursor(g, k, NoFault)];
            && Exec(s, r, es).Some? && CursorOf(Exec(s, r, es).value.cursors, r, k) == offset + n
            && Exec(s, r, es).value.flights == map[f := Advancing(map[], None), g := Advancing(map[], None)]
  {
    hide Apply;
    hide Enabled;
    hide CursorOf;
    WriteOne(s, r, f, k, m, offset);
    var s1 := Apply(s, r, WriteCursor(f, k, NoFault));
    WriteOne(s1, r, g, k, n, offset);
    TwoSteps(s, r, WriteCursor(f, k, NoFault), WriteCursor(g, k, NoFault));
  }

  lemma {:induction false} TwoSteps(s: Sys, r: Resolver, d: Event, e: Event)
    requires Enabled(s, d) && Enabled(Apply(s, r, d), e)
    ensures Exec(s, r, [d, e]) == Some(Apply(Apply(s, r, d), r, e))
  {
    assert Exec(s, r, []) == Some(s);
    hide Exec;
    hide Serial;
    hide Apply;
    hide Enabled;
    ExecStep(s, r, [], d);
    assert [] + [d] == [d];
    ExecStep(s, r, [d], e);
    assert [d] + [e] == [d, e];
  }

  lemma {:induction false} TwoReturns(s: Sys, r: Resolver)
    requires s.flights == map[1 := Advancing(map[], None), 2 := Advancing(map[], None)]
    ensures var es := [Finish(1), Finish(2)];
            Exec(s, r, es).Some? && Exec(s, r, es).value.flights == map[] && Exec(s, r, es).value.cursors == s.cursors
  {
    hide Apply;
    hide Enabled;
    FinishOne(s, r, 1);
    FinishOne(Apply(s, r, Finish(1)), r, 2);
    TwoSteps(s, r, Finish(1), Finish(2));
  }

  /** The cursor phase, both flushes reading before either writes. */
  lemma {:induction false} CursorPhases(s: Sys, r: Resolver, k: StreamKey, m: nat, n: nat, f: nat, g: nat)
    requires k in r && s.flights == map[1 := Advancing(map[k := m], None), 2 := Advancing(map[k := n], None)]
    requires (f == 1 && g == 2) || (f == 2 && g == 1)
    ensures Exec(s, r, BothReadFirst(k, f, g)).Some?
    ensures var s' := Exec(s, r, BothReadFirst(k, f, g)).value;
            s'.flights == map[] && CursorOf(s'.cursors, r, k) == CursorOf(s.cursors, r, k) + if g == 1 then m else n
  {
    hide Exec;
    hide Serial;
    hide CursorOf;
    var gets := [ReadCursor(1, k, NoFault), ReadCursor(2, k, NoFault)];
    var puts := [WriteCursor(f, k, NoFault), WriteCursor(g, k, NoFault)];
    TwoReads(s, r, k, m, n);
    var s1 := Exec(s, r, gets).value;
    TwoWrites(s1, r, k, f, if f == 1 then m else n, g, if g == 1 then m else n, CursorOf(s.cursors, r, k));
    ExecAppend(s, r, gets, puts);
    TwoReturns(Exec(s1, r, puts).value, r);
    ExecAppend(s, r, gets + puts, [Finish(1), Finish(2)]);
    assert gets + puts + [Finish(1), Finish(2)] == BothReadFirst(k, f, g);
  }

  /** Flush 1 holds the first line, flush 2 both; each reads the cursor before the other writes, and no
      access fails. All lines are acknowledged, and one advance is stored over: the cursor is not ahead,
      and behind if flush 1, of the shorter snapshot, puts last. */
  lemma {:induction false} LostUpdate(k: StreamKey, path: string, a: Line, b: Line, f: nat, g: nat)
    requires a.byteLen > 0 && ((f == 1 && g == 2) || (f == 2 && g == 1))
    ensures var r, es := map[k := path], TwoFlushes(k, a, b) + BothReadFirst(k, f, g);
            var s := Exec(Start(map[]), r, es);
            && s.Some? && s.value.flights == map[] && FaultFree(es, k) && SomeCrossed(es, r, k)
            && CursorOf(s.value.cursors, r, k) == (if g == 2 then a.byteLen + b.byteLen else a.byteLen)
  {
    var r, es := map[k := path], TwoFlushes(k, a, b) + BothReadFirst(k, f, g);
    assert Crossed(es, r, if g == 1 then 8 else 9, 10, 11, k);
    assert FaultFree(es, k);
    hide Exec;
    hide Crossed;
    hide FaultFree;
    var s := TwoDrains(k, a, b, r);
    CursorPhases(s, r, k, a.byteLen, a.byteLen + b.byteLen, f, g);
    hide TwoFlushes;
    hide BothReadFirst;
    ExecAppend(Start(map[]), r, TwoFlushes(k, a, b), BothReadFirst(k, f, g));
  }
}
