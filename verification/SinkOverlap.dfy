/** What overlapping calls of Flush do to a stream (internal/streamer/sink.go:162-166, 209-331): the runs
    of `SinkProtocol` with any number of flushes in flight. */
module SinkOverlaps {
  import opened Text
  import opened SinkSpec
  import opened SinkProtocol

  // --------------------------------------------------- following one stream

  /** The observed lines from `from` up to but not including `to`. */
  datatype Span = Span(from: nat, to: nat)

  /** How many observed lines of a stream have left its buffer, the span each flight under way has
      snapshotted, and the spans that accepted pushes have carried. */
  datatype Track = Track(dropped: nat, spans: map<nat, Span>, carried: seq<Span>)

  const UNTRACKED := Track(0, map[], [])

  function Min(a: nat, b: nat): nat {
    if a <= b then a else b
  }

  function Size(sp: Span): nat {
    if sp.from <= sp.to then sp.to - sp.from else 0
  }

  function Follow(t: Track, s: Sys, e: Event, k: StreamKey): Track {
    match e
    case Begin(id) =>
      if k in TakeSnapshot(s.memory) then t.(spans := t.spans[id := Span(t.dropped, |Observed(s, k)|)]) else t
    case PushOk(id) => if id in t.spans then t.(carried := t.carried + [t.spans[id]]) else t
    case PushFail(id) => t.(spans := t.spans - {id})
    case DrainNow(id) =>
      if id in t.spans
      then Track(Min(t.dropped + Size(t.spans[id]), |Observed(s, k)|), t.spans - {id}, t.carried)
      else t
    case _ => t
  }

  function Trace(s: Sys, r: Resolver, t: Track, es: seq<Event>, k: StreamKey): Track
    requires Exec(s, r, es).Some?
  {
    if es == [] then t
    else
      var init := es[..|es| - 1];
      Follow(Trace(s, r, t, init, k), Exec(s, r, init).value, es[|es| - 1], k)
  }

  /** Flight `id` has snapshotted the stream and not drained it. */
  predicate Holds(s: Sys, id: nat, k: StreamKey) {
    id in s.flights && (s.flights[id].Pushing? || s.flights[id].Delivered?) && k in s.flights[id].attempts
  }

  ghost predicate SpanIn(obs: seq<Line>, dropped: nat, sp: Span) {
    sp.from < sp.to <= |obs| && sp.from <= dropped
  }

  /** A flight's attempt on the stream is the lines of its span. */
  ghost predicate Spanned(obs: seq<Line>, t: Track, f: Flight, sp: Span, k: StreamKey) {
    && SpanIn(obs, t.dropped, sp)
    && !f.Advancing? && k in f.attempts && f.attempts[k].entries == Lines(obs)[sp.from..sp.to]
    && (f.Delivered? ==> sp in t.carried)
  }

  ghost predicate TrackInv(s: Sys, t: Track, k: StreamKey) {
    var obs := Observed(s, k);
    && t.dropped <= |obs| && Buffered(s, k) == Lines(obs)[t.dropped..]
    && (k in s.memory <==> obs != [])
    && (forall id: nat :: id in t.spans <==> Holds(s, id, k))
    && (forall id: nat :: id in t.spans ==> Spanned(obs, t, s.flights[id], t.spans[id], k))
    && (forall sp :: sp in t.carried ==> SpanIn(obs, t.dropped, sp))
  }

  lemma {:induction false} SpannedMore(obs: seq<Line>, line: Line, t: Track, f: Flight, sp: Span, k: StreamKey)
    requires Spanned(obs, t, f, sp, k)
    ensures Spanned(obs + [line], t, f, sp, k)
  {
    LinesMore(obs, line);
    hide Lines;
    SameSpan(Lines(obs), line.entry, sp.from, sp.to);
  }

  lemma {:induction false} SameFlightsHold(s: Sys, s': Sys, k: StreamKey)
    requires s'.flights == s.flights
    ensures forall id: nat :: Holds(s', id, k) == Holds(s, id, k)
  {
  }

  lemma {:induction false} SpanInMore(obs: seq<Line>, line: Line, dropped: nat, sp: Span)
    requires SpanIn(obs, dropped, sp)
    ensures SpanIn(obs + [line], dropped, sp)
  {
  }

  /** A stream that the event does not touch. */
  lemma {:induction false} Untouched(s: Sys, s': Sys, t: Track, k: StreamKey)
    requires TrackInv(s, t, k) && s'.flights == s.flights && Observed(s', k) == Observed(s, k)
    requires Buffered(s', k) == Buffered(s, k) && (k in s'.memory <==> k in s.memory)
    ensures TrackInv(s', t, k)
  {
    hide Lines;
    hide Spanned;
    hide SpanIn;
    hide Holds;
    SameFlightsHold(s, s', k);
    forall id: nat | id in t.spans ensures id in s.flights {
      HoldsInFlight(s, id, k);
    }
  }

  lemma {:induction false} OneMoreObserved(s: Sys, s': Sys, t: Track, line: Line, k: StreamKey)
    requires TrackInv(s, t, k) && s'.flights == s.flights && Observed(s', k) == Observed(s, k) + [line]
    requires Buffered(s', k) == Buffered(s, k) + [line.entry] && k in s'.memory
    ensures TrackInv(s', t, k)
  {
    hide Lines;
    hide Spanned;
    hide SpanIn;
    hide Holds;
    SameFlightsHold(s, s', k);
    var obs := Observed(s, k);
    LinesMore(obs, line);
    SameSlice(Lines(obs), line.entry, t.dropped);
    forall id: nat | id in t.spans ensures id in s.flights && Spanned(obs + [line], t, s.flights[id], t.spans[id], k) {
      HoldsInFlight(s, id, k);
      SpannedMore(obs, line, t, s.flights[id], t.spans[id], k);
    }
    forall sp | sp in t.carried ensures SpanIn(obs + [line], t.dropped, sp) {
      SpanInMore(obs, line, t.dropped, sp);
    }
  }

  lemma {:induction false} ObserveTracks(s: Sys, t: Track, r: Resolver, key: StreamKey, line: Line, k: StreamKey)
    requires TrackInv(s, t, k)
    ensures TrackInv(Apply(s, r, Observe(key, line)), t, k)
  {
    hide TrackInv;
    var s' := Apply(s, r, Observe(key, line));
    if key == k {
      OneMoreObserved(s, s', t, line, k);
    } else {
      Untouched(s, s', t, k);
    }
  }

  lemma {:induction false} HoldsInFlight(s: Sys, id: nat, k: StreamKey)
    ensures Holds(s, id, k) ==> id in s.flights
  {
  }

  lemma {:induction false} SameSlice<T>(a: seq<T>, x: T, i: nat)
    requires i <= |a|
    ensures (a + [x])[i..] == a[i..] + [x]
  {
  }

  lemma {:induction false} SameSpan<T>(a: seq<T>, x: T, i: nat, j: nat)
    requires i <= j <= |a|
    ensures (a + [x])[i..j] == a[i..j]
  {
  }

  lemma {:induction false} SnapshotAt(m: Memory, k: StreamKey)
    ensures k in TakeSnapshot(m) <==> LiveAt(m, k).entries != []
    ensures k in TakeSnapshot(m) ==> TakeSnapshot(m)[k] == Attempt(LiveAt(m, k).entries, LiveAt(m, k).bytes)
  {
  }

  lemma {:induction false} BeginHolds(s: Sys, r: Resolver, id: nat, k: StreamKey, i: nat)
    requires Enabled(s, Begin(id))
    ensures var s' := Apply(s, r, Begin(id));
            && !Holds(s, id, k) && (Holds(s, i, k) ==> i in s.flights) && (Holds(s', i, k) ==> i in s'.flights)
            && Holds(s', i, k) == (if i == id then k in TakeSnapshot(s.memory) else Holds(s, i, k))
            && (i != id && Holds(s, i, k) ==> s'.flights[i] == s.flights[i])
            && (i == id && k in TakeSnapshot(s.memory) ==> s'.flights[i] == Pushing(TakeSnapshot(s.memory)))
  {
    hide TakeSnapshot;
  }

  lemma {:induction false} SpannedStill(obs: seq<Line>, t: Track, t': Track, f: Flight, sp: Span, k: StreamKey)
    requires Spanned(obs, t, f, sp, k) && t'.dropped == t.dropped && t'.carried == t.carried
    ensures Spanned(obs, t', f, sp, k)
  {
  }

  lemma {:induction false} SpannedFirst(obs: seq<Line>, t: Track, m: Memory, k: StreamKey)
    requires t.dropped <= |obs| && LiveAt(m, k).entries == Lines(obs)[t.dropped..] && k in TakeSnapshot(m)
    ensures Spanned(obs, t, Pushing(TakeSnapshot(m)), Span(t.dropped, |obs|), k)
  {
    SnapshotAt(m, k);
    LinesLength(obs);
    hide Lines;
    hide TakeSnapshot;
    assert Lines(obs)[t.dropped..|obs|] == Lines(obs)[t.dropped..];
  }

  lemma {:induction false} BeginTracks(s: Sys, t: Track, r: Resolver, id: nat, k: StreamKey)
    requires TrackInv(s, t, k) && Enabled(s, Begin(id))
    ensures TrackInv(Apply(s, r, Begin(id)), Follow(t, s, Begin(id), k), k)
  {
    hide Lines;
    hide TakeSnapshot;
    hide Holds;
    hide Spanned;
    var s', t' := Apply(s, r, Begin(id)), Follow(t, s, Begin(id), k);
    var obs := Observed(s, k);
    assert s'.memory == s.memory && s'.observed == s.observed;
    forall i: nat ensures i in t'.spans <==> Holds(s', i, k) {
      BeginHolds(s, r, id, k, i);
    }
    forall i: nat | i in t'.spans ensures i in s'.flights && Spanned(obs, t', s'.flights[i], t'.spans[i], k) {
      BeginHolds(s, r, id, k, i);
      if i == id {
        SpannedFirst(obs, t', s.memory, k);
      } else {
        SpannedStill(obs, t, t', s.flights[i], t.spans[i], k);
      }
    }
  }

  lemma {:induction false} LinesLength(obs: seq<Line>)
    ensures |Lines(obs)| == |obs|
  {
  }

  /** What these events do to a flight that holds the stream. */
  lemma {:induction false} PushHolds(s: Sys, t: Track, r: Resolver, e: Event, k: StreamKey, i: nat)
    requires Enabled(s, e) && (e.PushOk? || e.PushFail? || e.ReadCursor? || e.WriteCursor? || e.Finish?)
    requires i in t.spans <==> Holds(s, i, k)
    requires i in t.spans ==> Spanned(Observed(s, k), t, s.flights[i], t.spans[i], k)
    ensures var s', t' := Apply(s, r, e), Follow(t, s, e, k);
            && (i in t'.spans <==> Holds(s', i, k))
            && (i in t'.spans ==> i in s'.flights && Spanned(Observed(s, k), t', s'.flights[i], t'.spans[i], k))
  {
    hide Lines;
    hide SpanIn;
    hide Acknowledge;
    hide ReadStep;
    hide WriteStep;
    hide BumpsAfter;
    if e.ReadCursor? || e.WriteCursor? {
      CursorFlight(s, r, e);
    }
  }

  lemma {:induction false} PushTracks(s: Sys, t: Track, r: Resolver, e: Event, k: StreamKey)
    requires TrackInv(s, t, k) && Enabled(s, e) && (e.PushOk? || e.PushFail? || e.ReadCursor? || e.WriteCursor? || e.Finish?)
    ensures TrackInv(Apply(s, r, e), Follow(t, s, e, k), k)
  {
    hide Lines;
    hide Acknowledge;
    hide ReadStep;
    hide WriteStep;
    hide BumpsAfter;
    var s', t' := Apply(s, r, e), Follow(t, s, e, k);
    if e.ReadCursor? || e.WriteCursor? {
      CursorFlight(s, r, e);
    }
    assert e.PushOk? && e.id in t.spans ==> Spanned(Observed(s, k), t, s.flights[e.id], t.spans[e.id], k);
    assert forall sp :: sp in t'.carried ==> SpanIn(Observed(s, k), t.dropped, sp);
    hide Spanned;
    hide SpanIn;
    forall i: nat
      ensures i in t'.spans <==> Holds(s', i, k)
      ensures i in t'.spans ==> i in s'.flights && Spanned(Observed(s, k), t', s'.flights[i], t'.spans[i], k)
    {
      PushHolds(s, t, r, e, k, i);
    }
  }

  /** What a drain does to a flight that holds the stream. */
  lemma {:induction false} DrainHolds(s: Sys, t: Track, r: Resolver, id: nat, k: StreamKey, i: nat)
    requires Enabled(s, DrainNow(id)) && t.dropped <= |Observed(s, k)|
    requires i in t.spans <==> Holds(s, i, k)
    requires i in t.spans ==> Spanned(Observed(s, k), t, s.flights[i], t.spans[i], k)
    ensures var s', t' := Apply(s, r, DrainNow(id)), Follow(t, s, DrainNow(id), k);
            && (i in t'.spans <==> Holds(s', i, k))
            && (i in t'.spans ==> i in s'.flights && Spanned(Observed(s, k), t', s'.flights[i], t'.spans[i], k))
  {
    hide Lines;
    hide Drain;
    hide Bumps;
    hide Observed;
  }

  lemma {:induction false} DrainSlice(all: seq<Entry>, live: Live, a: Attempt, dropped: nat)
    requires dropped <= |all| && live.entries == all[dropped..]
    ensures DrainLive(live, a).entries == all[Min(dropped + |a.entries|, |all|)..]
  {
  }

  /** What a drain leaves in the buffer. */
  lemma {:induction false} DrainLeaves(s: Sys, t: Track, r: Resolver, id: nat, k: StreamKey)
    requires Enabled(s, DrainNow(id)) && t.dropped <= |Observed(s, k)| && Buffered(s, k) == Lines(Observed(s, k))[t.dropped..]
    requires id in t.spans <==> Holds(s, id, k)
    requires id in t.spans ==> k in s.memory && Spanned(Observed(s, k), t, s.flights[id], t.spans[id], k)
    ensures var s', t' := Apply(s, r, DrainNow(id)), Follow(t, s, DrainNow(id), k);
            && t.dropped <= t'.dropped <= |Observed(s, k)| && Buffered(s', k) == Lines(Observed(s, k))[t'.dropped..]
            && Observed(s', k) == Observed(s, k) && (k in s'.memory <==> k in s.memory)
            && t'.carried == t.carried
  {
    hide Bumps;
    hide DrainLive;
    LinesLength(Observed(s, k));
    hide Lines;
    if id in t.spans {
      DrainSlice(Lines(Observed(s, k)), LiveAt(s.memory, k), s.flights[id].attempts[k], t.dropped);
    }
  }

  lemma {:induction false} DrainTracks(s: Sys, t: Track, r: Resolver, id: nat, k: StreamKey)
    requires TrackInv(s, t, k) && Enabled(s, DrainNow(id))
    ensures TrackInv(Apply(s, r, DrainNow(id)), Follow(t, s, DrainNow(id), k), k)
  {
    var s', t' := Apply(s, r, DrainNow(id)), Follow(t, s, DrainNow(id), k);
    assert id in t.spans ==> SpanIn(Observed(s, k), t.dropped, t.spans[id]);
    assert id in t.spans <==> Holds(s, id, k);
    hide Lines;
    hide Spanned;
    hide Holds;
    hide Apply;
    hide Follow;
    DrainLeaves(s, t, r, id, k);
    forall i: nat
      ensures i in t'.spans <==> Holds(s', i, k)
      ensures i in t'.spans ==> i in s'.flights && Spanned(Observed(s, k), t', s'.flights[i], t'.spans[i], k)
    {
      DrainHolds(s, t, r, id, k, i);
    }
    forall c | c in t'.carried ensures SpanIn(Observed(s, k), t'.dropped, c) {
      assert SpanIn(Observed(s, k), t.dropped, c);
    }
  }

  lemma {:induction false} StepTracks(s: Sys, t: Track, r: Resolver, e: Event, k: StreamKey)
    requires TrackInv(s, t, k) && Enabled(s, e)
    ensures TrackInv(Apply(s, r, e), Follow(t, s, e, k), k)
  {
    match e
    case Observe(key, line) => ObserveTracks(s, t, r, key, line, k);
    case Begin(id) => BeginTracks(s, t, r, id, k);
    case DrainNow(id) => DrainTracks(s, t, r, id, k);
    case _ => PushTracks(s, t, r, e, k);
  }

  /** In every run, serial or not, the buffer is what was observed after the lines dropped. */
  lemma {:induction false} RunTracks(s: Sys, r: Resolver, t: Track, es: seq<Event>, k: StreamKey)
    requires TrackInv(s, t, k) && Exec(s, r, es).Some?
    ensures TrackInv(Exec(s, r, es).value, Trace(s, r, t, es, k), k)
  {
    hide TrackInv;
    hide Apply;
    hide Follow;
    if es != [] {
      var init := es[..|es| - 1];
      RunTracks(s, r, t, init, k);
      StepTracks(Exec(s, r, init).value, Trace(s, r, t, init, k), r, es[|es| - 1], k);
    }
  }

  lemma {:induction false} StartTracks(start: Cursors, k: StreamKey)
    ensures TrackInv(Start(start), UNTRACKED, k)
  {
  }

  // ------------------------------------------------------------- lost lines

  predicate Covers(carried: seq<Span>, i: nat) {
    exists j :: 0 <= j < |carried| && carried[j].from <= i < carried[j].to
  }

  /** Every line that has left the buffer was in an accepted push. */
  ghost predicate NothingLost(t: Track) {
    forall i: nat :: i < t.dropped ==> Covers(t.carried, i)
  }

  /** One past the last line that any accepted push has carried. */
  function Reach(carried: seq<Span>): nat {
    if carried == [] then 0
    else
      var before, last := Reach(carried[..|carried| - 1]), carried[|carried| - 1].to;
      if before < last then last else before
  }

  lemma {:induction false} ReachBounds(carried: seq<Span>, n: nat)
    requires forall sp :: sp in carried ==> sp.from < sp.to <= n
    ensures Reach(carried) <= n && (forall sp :: sp in carried ==> sp.to <= Reach(carried))
    ensures forall i: nat :: Covers(carried, i) ==> i < Reach(carried)
  {
    if carried != [] {
      var m := |carried| - 1;
      ReachBounds(carried[..m], n);
      assert carried == carried[..m] + [carried[m]];
      assert carried[m] in carried;
    }
    forall i: nat | Covers(carried, i) ensures i < Reach(carried) {
      var j :| 0 <= j < |carried| && carried[j].from <= i < carried[j].to;
      assert carried[j] in carried;
    }
  }

  lemma {:induction false} CoversMore(carried: seq<Span>, sp: Span, i: nat)
    ensures Covers(carried + [sp], i) <==> Covers(carried, i) || sp.from <= i < sp.to
  {
    var more := carried + [sp];
    assert more[|carried|] == sp;
    if Covers(carried, i) {
      var j :| 0 <= j < |carried| && carried[j].from <= i < carried[j].to;
      assert more[j] == carried[j];
    }
  }

  /** What accepted pushes have carried has no gap. */
  ghost predicate Gapless(carried: seq<Span>) {
    forall i: nat :: i < Reach(carried) ==> Covers(carried, i)
  }

  lemma {:induction false} StaysGapless(carried: seq<Span>, sp: Span)
    requires Gapless(carried) && sp.from <= Reach(carried)
    ensures Gapless(carried + [sp])
  {
    assert (carried + [sp])[..|carried|] == carried;
    forall i: nat | i < Reach(carried + [sp]) ensures Covers(carried + [sp], i) {
      CoversMore(carried, sp, i);
    }
  }

  lemma {:induction false} DroppedIsReached(s: Sys, t: Track, k: StreamKey)
    requires TrackInv(s, t, k) && NothingLost(t)
    ensures t.dropped <= Reach(t.carried)
  {
    ReachBounds(t.carried, |Observed(s, k)|);
    if t.dropped > 0 {
      assert Covers(t.carried, t.dropped - 1);
    }
  }

  /** At no point of the run was a line lost. */
  ghost predicate NeverLost(s: Sys, r: Resolver, t: Track, es: seq<Event>, k: StreamKey)
    requires Exec(s, r, es).Some?
  {
    NothingLost(Trace(s, r, t, es, k)) && (es == [] || NeverLost(s, r, t, es[..|es| - 1], k))
  }

  lemma {:induction false} NeverLostIsGapless(s: Sys, r: Resolver, t: Track, es: seq<Event>, k: StreamKey)
    requires Exec(s, r, es).Some? && NeverLost(s, r, t, es, k) && TrackInv(s, t, k) && Gapless(t.carried)
    ensures Gapless(Trace(s, r, t, es, k).carried)
  {
    hide TrackInv;
    hide NothingLost;
    hide Gapless;
    if es != [] {
      var init, e := es[..|es| - 1], es[|es| - 1];
      var mid, t1 := Exec(s, r, init).value, Trace(s, r, t, init, k);
      hide Exec;
      NeverLostIsGapless(s, r, t, init, k);
      RunTracks(s, r, t, init, k);
      PushStaysGapless(mid, t1, e, k);
    }
  }

  lemma {:induction false} PushStaysGapless(s: Sys, t: Track, e: Event, k: StreamKey)
    requires TrackInv(s, t, k) && NothingLost(t) && Gapless(t.carried)
    ensures Gapless(Follow(t, s, e, k).carried)
  {
    DroppedIsReached(s, t, k);
    if e.PushOk? && e.id in t.spans {
      assert SpanIn(Observed(s, k), t.dropped, t.spans[e.id]);
      StaysGapless(t.carried, t.spans[e.id]);
    }
  }

  /** Any run that has lost nothing yet, with however many flushes in flight: the next drain loses a
      line if and only if it drops more than accepted pushes have reached. */
  lemma {:induction false} DrainLosesIffBeyondReach(start: Cursors, r: Resolver, es: seq<Event>, id: nat, k: StreamKey)
    requires Exec(Start(start), r, es + [DrainNow(id)]).Some? && Exec(Start(start), r, es).Some?
    requires NeverLost(Start(start), r, UNTRACKED, es, k)
    requires id in Trace(Start(start), r, UNTRACKED, es, k).spans
    ensures var s, t := Exec(Start(start), r, es).value, Trace(Start(start), r, UNTRACKED, es, k);
            NothingLost(Trace(Start(start), r, UNTRACKED, es + [DrainNow(id)], k)) <==>
            Min(t.dropped + Size(t.spans[id]), |Observed(s, k)|) <= Reach(t.carried)
  {
    var s0 := Start(start);
    StartTracks(start, k);
    RunTracks(s0, r, UNTRACKED, es, k);
    NeverLostIsGapless(s0, r, UNTRACKED, es, k);
    var all := es + [DrainNow(id)];
    assert all[..|all| - 1] == es;
    var s, t := Exec(s0, r, es).value, Trace(s0, r, UNTRACKED, es, k);
    var t' := Trace(s0, r, UNTRACKED, all, k);
    hide Exec;
    assert t' == Follow(t, s, DrainNow(id), k);
    ReachBounds(t.carried, |Observed(s, k)|) by {
      assert forall sp :: sp in t.carried ==> SpanIn(Observed(s, k), t.dropped, sp);
    }
    hide TrackInv;
    if NothingLost(t') && t'.dropped > 0 {
      assert Covers(t'.carried, t'.dropped - 1);
    }
  }

  // --------------------------------------------------- serial so far, on one track

  /** In a serial run a span under way begins where dropping has come to, and accepted pushes have
      carried just what was dropped and what is still to be drained. */
  ghost predicate SerialTrack(s: Sys, t: Track) {
    && NothingLost(t)
    && (forall id: nat :: id in t.spans ==> t.spans[id].from == t.dropped)
    && (forall sp :: sp in t.carried ==>
          sp.to <= t.dropped || exists id: nat :: id in t.spans && id in s.flights && s.flights[id].Delivered? && t.spans[id] == sp)
  }

  /** What a step of a serial run does to the lines dropped and to the spans under way. */
  lemma {:induction false} SerialStepDrops(s: Sys, t: Track, r: Resolver, e: Event, k: StreamKey)
    requires TrackInv(s, t, k) && SerialTrack(s, t) && Enabled(s, e)
    requires (e.Begin? ==> s.flights == map[]) && forall i, j :: i in s.flights && j in s.flights ==> i == j
    ensures var t' := Follow(t, s, e, k);
            NothingLost(t') && forall id: nat :: id in t'.spans ==> t'.spans[id].from == t'.dropped
  {
    hide Lines;
    hide TakeSnapshot;
    var t' := Follow(t, s, e, k);
    assert forall id: nat :: id in t.spans ==> Holds(s, id, k) && SpanIn(Observed(s, k), t.dropped, t.spans[id]);
    forall i: nat | i < t'.dropped ensures Covers(t'.carried, i) {
      if e.PushOk? && e.id in t.spans {
        CoversMore(t.carried, t.spans[e.id], i);
      } else if e.DrainNow? && e.id in t.spans && t.dropped <= i {
        var sp := t.spans[e.id];
        var j :| 0 <= j < |t.carried| && t.carried[j] == sp;
      }
    }
  }

  /** A delivered span is one flight's, and stays so until that flight drains. */
  lemma {:induction false} StaysDelivered(s: Sys, t: Track, r: Resolver, e: Event, id: nat, k: StreamKey)
    requires Enabled(s, e) && id in t.spans && id in s.flights && s.flights[id].Delivered? && !(e.DrainNow? && e.id == id)
    ensures var s', t' := Apply(s, r, e), Follow(t, s, e, k);
            id in t'.spans && id in s'.flights && s'.flights[id].Delivered? && t'.spans[id] == t.spans[id]
  {
    hide Lines;
    hide Drain;
    hide Bumps;
    hide Acknowledge;
    hide AppendLine;
    hide TakeSnapshot;
    hide ReadStep;
    hide WriteStep;
    hide Observed;
    if e.ReadCursor? || e.WriteCursor? {
      CursorFlight(s, r, e);
    }
  }

  lemma {:induction false} SerialStepTracks(s: Sys, t: Track, r: Resolver, e: Event, k: StreamKey)
    requires TrackInv(s, t, k) && SerialTrack(s, t) && Enabled(s, e)
    requires (e.Begin? ==> s.flights == map[]) && forall i, j :: i in s.flights && j in s.flights ==> i == j
    ensures SerialTrack(Apply(s, r, e), Follow(t, s, e, k))
  {
    hide Lines;
    hide TakeSnapshot;
    hide Covers;
    hide Acknowledge;
    var s', t' := Apply(s, r, e), Follow(t, s, e, k);
    SerialStepDrops(s, t, r, e, k);
    assert e.DrainNow? && e.id in t.spans ==>
      Holds(s, e.id, k) && t.spans[e.id].from == t.dropped && SpanIn(Observed(s, k), t.dropped, t.spans[e.id]);
    assert e.PushOk? && e.id in t.spans ==> e.id in s'.flights && s'.flights[e.id].Delivered?;
    hide Apply;
    hide TrackInv;
    hide Holds;
    hide NothingLost;
    forall sp | sp in t'.carried
      ensures sp.to <= t'.dropped
              || exists id: nat :: id in t'.spans && id in s'.flights && s'.flights[id].Delivered? && t'.spans[id] == sp
    {
      if sp in t.carried && sp.to > t.dropped {
        var id: nat :| id in t.spans && id in s.flights && s.flights[id].Delivered? && t.spans[id] == sp;
        if !(e.DrainNow? && e.id == id) {
          StaysDelivered(s, t, r, e, id, k);
        }
      } else if sp !in t.carried {
        assert e.PushOk? && e.id in t'.spans && s'.flights[e.id].Delivered? && t'.spans[e.id] == sp;
      }
    }
  }

  lemma {:induction false} SerialRunTracks(start: Cursors, r: Resolver, es: seq<Event>, k: StreamKey)
    requires DistinctPaths(r) && Exec(Start(start), r, es).Some? && Serial(Start(start), r, es)
    ensures var s, t := Exec(Start(start), r, es).value, Trace(Start(start), r, UNTRACKED, es, k);
            TrackInv(s, t, k) && SerialTrack(s, t)
  {
    hide TrackInv;
    hide SerialTrack;
    StartTracks(start, k);
    RunTracks(Start(start), r, UNTRACKED, es, k);
    if es == [] {
      StartIsSerial(start);
    } else {
      var init := es[..|es| - 1];
      SerialRunTracks(start, r, init, k);
      SerialRunInv(start, r, init);
      hide Inv;
      var s := Exec(Start(start), r, init).value;
      OneFlight(s, r, start);
      SerialStepTracks(s, Trace(Start(start), r, UNTRACKED, init, k), r, es[|es| - 1], k);
    }
  }

  lemma {:induction false} StartIsSerial(start: Cursors)
    ensures SerialTrack(Start(start), UNTRACKED)
  {
  }

  lemma {:induction false} OneFlight(s: Sys, r: Resolver, start: Cursors)
    requires Inv(s, r, start)
    ensures forall i, j :: i in s.flights && j in s.flights ==> i == j
  {
  }

  // ------------------------------------------------------- two flushes overlap

  /** Neither a snapshot, nor a failed push, nor a drain. */
  predicate Passive(e: Event) {
    e.Observe? || e.PushOk? || e.ReadCursor? || e.WriteCursor? || e.Finish?
  }

  predicate AllPassive(es: seq<Event>) {
    forall e :: e in es ==> Passive(e)
  }

  /** What a stretch of passive events leaves alone. */
  ghost predicate Passed(s: Sys, t: Track, s': Sys, t': Track, arrived: seq<Line>, k: StreamKey) {
    && t'.dropped == t.dropped && t'.spans == t.spans
    && Observed(s', k) == Observed(s, k) + arrived
    && LiveAt(s'.memory, k).bytes == LiveAt(s.memory, k).bytes + Bytes(arrived)
    && (forall id: nat :: id in t.spans ==>
          && id in s.flights && !s.flights[id].Advancing? && id in s'.flights && !s'.flights[id].Advancing?
          && s'.flights[id].attempts == s.flights[id].attempts)
    && (forall sp :: sp in t.carried ==> sp in t'.carried)
    && (forall sp :: sp in t'.carried ==> sp in t.carried || exists id: nat :: id in t.spans && t.spans[id] == sp)
  }

  lemma {:induction false} PassiveFlight(s: Sys, r: Resolver, e: Event, k: StreamKey, id: nat)
    requires Enabled(s, e) && Passive(e) && Holds(s, id, k)
    ensures var s' := Apply(s, r, e);
            && id in s'.flights && !s'.flights[id].Advancing? && s'.flights[id].attempts == s.flights[id].attempts
  {
    hide Acknowledge;
    hide AppendLine;
    hide ReadStep;
    hide WriteStep;
    hide BumpsAfter;
    if e.ReadCursor? || e.WriteCursor? {
      CursorFlight(s, r, e);
    }
  }

  lemma {:induction false} PassiveCarries(s: Sys, t: Track, e: Event, k: StreamKey)
    requires Passive(e)
    ensures var t' := Follow(t, s, e, k);
            && t'.dropped == t.dropped && t'.spans == t.spans && (forall sp :: sp in t.carried ==> sp in t'.carried)
            && (forall sp :: sp in t'.carried ==> sp in t.carried || exists id: nat :: id in t.spans && t.spans[id] == sp)
  {
  }

  lemma {:induction false} PassiveStep(s: Sys, t: Track, r: Resolver, e: Event, k: StreamKey)
    requires TrackInv(s, t, k) && Enabled(s, e) && Passive(e)
    ensures Passed(s, t, Apply(s, r, e), Follow(t, s, e, k), LineOf(e, k), k)
  {
    assert forall id: nat :: id in t.spans ==> Holds(s, id, k);
    hide TrackInv;
    hide Apply;
    hide Follow;
    hide Enabled;
    hide Passive;
    hide Bytes;
    hide LineOf;
    forall id: nat | id in t.spans
      ensures var s' := Apply(s, r, e);
              && id in s'.flights && !s'.flights[id].Advancing? && s'.flights[id].attempts == s.flights[id].attempts
    {
      PassiveFlight(s, r, e, k, id);
    }
    PassiveCarries(s, t, e, k);
    ObservedStep(s, r, e, k);
    PassiveBytes(s, r, e, k);
  }

  lemma {:induction false} PassiveBytes(s: Sys, r: Resolver, e: Event, k: StreamKey)
    requires Enabled(s, e) && Passive(e)
    ensures LiveAt(Apply(s, r, e).memory, k).bytes == LiveAt(s.memory, k).bytes + Bytes(LineOf(e, k))
  {
    hide Acknowledge;
    hide ReadStep;
    hide WriteStep;
    if e.ReadCursor? || e.WriteCursor? {
      CursorFlight(s, r, e);
    }
    if e.Observe? {
      OneLine(e.line);
    }
  }

  lemma {:induction false} OneLine(line: Line)
    ensures Bytes([line]) == line.byteLen
  {
    assert [line][..0] == [];
  }

  lemma {:induction false} PassedThen(s: Sys, t: Track, s1: Sys, t1: Track, s2: Sys, t2: Track,
                                      a: seq<Line>, b: seq<Line>, k: StreamKey)
    requires Passed(s, t, s1, t1, a, k) && Passed(s1, t1, s2, t2, b, k)
    ensures Passed(s, t, s2, t2, a + b, k)
  {
    BytesAppend(a, b);
    hide Bytes;
    assert Observed(s, k) + a + b == Observed(s, k) + (a + b);
  }

  lemma {:induction false} BytesAppend(a: seq<Line>, b: seq<Line>)
    ensures Bytes(a + b) == Bytes(a) + Bytes(b)
  {
    if b == [] {
      assert a + b == a;
    } else {
      assert (a + b)[..|a + b| - 1] == a + b[..|b| - 1];
      BytesAppend(a, b[..|b| - 1]);
    }
  }

  lemma {:induction false} PassiveRun(s: Sys, t: Track, r: Resolver, es: seq<Event>, k: StreamKey)
    requires TrackInv(s, t, k) && Exec(s, r, es).Some? && AllPassive(es)
    ensures Passed(s, t, Exec(s, r, es).value, Trace(s, r, t, es, k), History(es, k), k)
  {
    if es == [] {
      NothingPassed(s, t, k);
    } else {
      hide TrackInv;
      hide Passed;
      hide Passive;
      hide Apply;
      hide Follow;
      var init, e := es[..|es| - 1], es[|es| - 1];
      assert e in es && forall d :: d in init ==> d in es;
      PassiveRun(s, t, r, init, k);
      RunTracks(s, r, t, init, k);
      var s1, t1 := Exec(s, r, init).value, Trace(s, r, t, init, k);
      PassiveStep(s1, t1, r, e, k);
      PassedThen(s, t, s1, t1, Exec(s, r, es).value, Trace(s, r, t, es, k), History(init, k), LineOf(e, k), k);
    }
  }

  lemma {:induction false} NothingPassed(s: Sys, t: Track, k: StreamKey)
    requires TrackInv(s, t, k)
    ensures Passed(s, t, s, t, [], k)
  {
    assert Observed(s, k) + [] == Observed(s, k);
    assert forall id: nat :: id in t.spans ==> Holds(s, id, k);
  }

  lemma {:induction false} ExecSplit(s: Sys, r: Resolver, a: seq<Event>, b: seq<Event>)
    requires Exec(s, r, a + b).Some?
    ensures Exec(s, r, a).Some? && Exec(s, r, a + b) == Exec(Exec(s, r, a).value, r, b)
    decreases |b|
  {
    hide Apply;
    hide Enabled;
    if b == [] {
      assert a + b == a;
    } else {
      assert (a + b)[..|a + b| - 1] == a + b[..|b| - 1];
      ExecSplit(s, r, a, b[..|b| - 1]);
    }
  }

  lemma {:induction false} TraceSplit(s: Sys, r: Resolver, t: Track, a: seq<Event>, b: seq<Event>, k: StreamKey)
    requires Exec(s, r, a + b).Some?
    ensures Exec(s, r, a).Some? && Exec(Exec(s, r, a).value, r, b).Some?
    ensures Trace(s, r, t, a + b, k) == Trace(Exec(s, r, a).value, r, Trace(s, r, t, a, k), b, k)
    decreases |b|
  {
    hide Apply;
    hide Enabled;
    hide Follow;
    ExecSplit(s, r, a, b);
    if b == [] {
      assert a + b == a;
    } else {
      var init := b[..|b| - 1];
      assert (a + b)[..|a + b| - 1] == a + init;
      TraceSplit(s, r, t, a, init, k);
      ExecSplit(s, r, a, init);
    }
  }

  lemma {:induction false} TraceOne(s: Sys, r: Resolver, t: Track, e: Event, k: StreamKey)
    requires Exec(s, r, [e]).Some?
    ensures Enabled(s, e) && Exec(s, r, [e]) == Some(Apply(s, r, e)) && Trace(s, r, t, [e], k) == Follow(t, s, e, k)
  {
    assert [e][..0] == [];
    assert Exec(s, r, []) == Some(s) && Trace(s, r, t, [], k) == t;
  }

  /** A second flush begins while the first still holds the stream: both hold the same lines, and the
      second whatever has come since. */
  lemma {:induction false} SecondBegins(s: Sys, t: Track, r: Resolver, p: nat, q: nat, k: StreamKey)
    requires TrackInv(s, t, k) && SerialTrack(s, t) && Holds(s, p, k) && Enabled(s, Begin(q))
    ensures var s', t' := Apply(s, r, Begin(q)), Follow(t, s, Begin(q), k);
            && p != q && p in t.spans && t'.dropped == t.dropped && t'.carried == t.carried
            && t'.spans == t.spans[q := Span(t.dropped, |Observed(s, k)|)]
            && Observed(s', k) == Observed(s, k) && LiveAt(s'.memory, k) == LiveAt(s.memory, k)
            && Holds(s', p, k) && Holds(s', q, k)
            && s'.flights[p] == s.flights[p] && s'.flights[q].attempts[k].bytes == LiveAt(s.memory, k).bytes
            && t.spans[p].from == t.dropped < t.spans[p].to <= |Observed(s, k)|
  {
    hide Lines;
    SnapshotAt(s.memory, k);
    assert p in t.spans && SpanIn(Observed(s, k), t.dropped, t.spans[p]);
    LinesLength(Observed(s, k));
    BeginHolds(s, r, q, k, q);
    BeginHolds(s, r, q, k, p);
  }

  /** One drain. */
  lemma {:induction false} DrainMoves(s: Sys, t: Track, r: Resolver, id: nat, k: StreamKey)
    requires TrackInv(s, t, k) && id in t.spans && Enabled(s, DrainNow(id))
    ensures var s', t' := Apply(s, r, DrainNow(id)), Follow(t, s, DrainNow(id), k);
            && Holds(s, id, k) && t.spans[id] in t.carried && t'.carried == t.carried && t'.spans == t.spans - {id}
            && t'.dropped == Min(t.dropped + Size(t.spans[id]), |Observed(s, k)|)
            && Observed(s', k) == Observed(s, k)
            && (s.flights[id].attempts[k].bytes >= 0 ==>
                  LiveAt(s'.memory, k).bytes == LiveAt(s.memory, k).bytes - s.flights[id].attempts[k].bytes)
            && forall i: nat :: i in t'.spans ==> Holds(s, i, k) && i in s'.flights && s'.flights[i] == s.flights[i]
  {
    hide Lines;
    hide Bumps;
    assert Holds(s, id, k) && SpanIn(Observed(s, k), t.dropped, t.spans[id]);
  }

  /** A second flush begins, both pushes are accepted, and both drain; observations, cursor writes and
      returns may come anywhere between. `a` is the flush that drains first. */
  function Schedule(q: nat, x: seq<Event>, a: nat, y: seq<Event>, b: nat): seq<Event> {
    [Begin(q)] + (x + ([DrainNow(a)] + (y + [DrainNow(b)])))
  }

  /** The five states of such a schedule. */
  lemma {:induction false} ScheduleStates(
    s0: Sys, t0: Track, r: Resolver, q: nat, x: seq<Event>, a: nat, y: seq<Event>, b: nat, k: StreamKey)
    returns (s2: Sys, t2: Track, s4: Sys, t4: Track)
    requires TrackInv(s0, t0, k) && Exec(s0, r, Schedule(q, x, a, y, b)).Some?
    ensures Enabled(s0, Begin(q))
    ensures var s1, t1 := Apply(s0, r, Begin(q)), Follow(t0, s0, Begin(q), k);
            TrackInv(s1, t1, k) && Exec(s1, r, x) == Some(s2) && Trace(s1, r, t1, x, k) == t2
    ensures TrackInv(s2, t2, k) && Enabled(s2, DrainNow(a))
    ensures var s3, t3 := Apply(s2, r, DrainNow(a)), Follow(t2, s2, DrainNow(a), k);
            TrackInv(s3, t3, k) && Exec(s3, r, y) == Some(s4) && Trace(s3, r, t3, y, k) == t4
    ensures TrackInv(s4, t4, k) && Enabled(s4, DrainNow(b))
    ensures Exec(s0, r, Schedule(q, x, a, y, b)) == Some(Apply(s4, r, DrainNow(b)))
    ensures Trace(s0, r, t0, Schedule(q, x, a, y, b), k) == Follow(t4, s4, DrainNow(b), k)
  {
    hide TrackInv;
    hide Exec;
    hide Trace;
    hide Apply;
    hide Follow;
    hide Enabled;
    var last, rest3 := [DrainNow(b)], y + [DrainNow(b)];
    var rest2 := x + ([DrainNow(a)] + rest3);
    TraceSplit(s0, r, t0, [Begin(q)], rest2, k);
    ExecSplit(s0, r, [Begin(q)], rest2);
    TraceOne(s0, r, t0, Begin(q), k);
    var s1, t1 := Apply(s0, r, Begin(q)), Follow(t0, s0, Begin(q), k);
    StepTracks(s0, t0, r, Begin(q), k);
    TraceSplit(s1, r, t1, x, [DrainNow(a)] + rest3, k);
    ExecSplit(s1, r, x, [DrainNow(a)] + rest3);
    s2, t2 := Exec(s1, r, x).value, Trace(s1, r, t1, x, k);
    RunTracks(s1, r, t1, x, k);
    TraceSplit(s2, r, t2, [DrainNow(a)], rest3, k);
    ExecSplit(s2, r, [DrainNow(a)], rest3);
    TraceOne(s2, r, t2, DrainNow(a), k);
    var s3, t3 := Apply(s2, r, DrainNow(a)), Follow(t2, s2, DrainNow(a), k);
    StepTracks(s2, t2, r, DrainNow(a), k);
    TraceSplit(s3, r, t3, y, last, k);
    ExecSplit(s3, r, y, last);
    s4, t4 := Exec(s3, r, y).value, Trace(s3, r, t3, y, k);
    RunTracks(s3, r, t3, y, k);
    TraceOne(s4, r, t4, DrainNow(b), k);
  }

  /** Both flushes hold the stream: `sp` and `sq` are their spans, `pb` and `qb` their byte counts. */
  ghost predicate Both(s: Sys, t: Track, p: nat, q: nat, sp: Span, sq: Span, pb: int, qb: int, k: StreamKey) {
    && p != q && t.spans == map[p := sp, q := sq] && sp.from == sq.from == t.dropped < sp.to <= sq.to
    && p in s.flights && !s.flights[p].Advancing? && k in s.flights[p].attempts && s.flights[p].attempts[k].bytes == pb
    && q in s.flights && !s.flights[q].Advancing? && k in s.flights[q].attempts && s.flights[q].attempts[k].bytes == qb
  }

  lemma {:induction false} BothHold(s0: Sys, t0: Track, r: Resolver, p: nat, q: nat, k: StreamKey)
    requires TrackInv(s0, t0, k) && SerialTrack(s0, t0) && Holds(s0, p, k) && p in t0.spans && Enabled(s0, Begin(q))
    requires forall i, j :: i in s0.flights && j in s0.flights ==> i == j
    ensures var s1, t1 := Apply(s0, r, Begin(q)), Follow(t0, s0, Begin(q), k);
            && Both(s1, t1, p, q, t0.spans[p], Span(t0.dropped, |Observed(s0, k)|),
                    s0.flights[p].attempts[k].bytes, LiveAt(s0.memory, k).bytes, k)
            && t1.dropped == t0.dropped && t1.carried == t0.carried
            && Observed(s1, k) == Observed(s0, k) && LiveAt(s1.memory, k) == LiveAt(s0.memory, k)
  {
    SecondBegins(s0, t0, r, p, q, k);
    SpansOfFlights(s0, t0, p, k);
    assert forall id: nat :: id in t0.spans ==> Holds(s0, id, k);
    assert t0.spans == map[p := t0.spans[p]];
  }

  lemma {:induction false} BothPass(s: Sys, t: Track, s': Sys, t': Track, p: nat, q: nat, sp: Span, sq: Span, pb: int, qb: int,
                                    arrived: seq<Line>, k: StreamKey)
    requires Both(s, t, p, q, sp, sq, pb, qb, k) && Passed(s, t, s', t', arrived, k)
    ensures Both(s', t', p, q, sp, sq, pb, qb, k)
    ensures forall c :: c in t'.carried ==> c in t.carried || c == sp || c == sq
  {
    assert p in t.spans && q in t.spans;
    hide Bytes;
  }

  /** The first of the two to drain, and what is passed until the second does. */
  lemma {:induction false} FirstDrains(s2: Sys, t2: Track, r: Resolver, a: nat, b: nat, sa: Span, sb: Span, ab: int, bb: int, k: StreamKey)
    requires TrackInv(s2, t2, k) && Enabled(s2, DrainNow(a)) && a != b && t2.spans == map[a := sa, b := sb]
    requires sa.from == sb.from == t2.dropped < sa.to && t2.dropped < sb.to
    requires ab >= 0 && a in s2.flights && !s2.flights[a].Advancing? && k in s2.flights[a].attempts && s2.flights[a].attempts[k].bytes == ab
    requires b in s2.flights && !s2.flights[b].Advancing? && k in s2.flights[b].attempts && s2.flights[b].attempts[k].bytes == bb
    ensures var s3, t3 := Apply(s2, r, DrainNow(a)), Follow(t2, s2, DrainNow(a), k);
            && t3.spans == map[b := sb] && t3.dropped == sa.to && t3.carried == t2.carried && sa in t3.carried
            && Observed(s3, k) == Observed(s2, k) && LiveAt(s3.memory, k).bytes == LiveAt(s2.memory, k).bytes - ab
            && b in s3.flights && s3.flights[b] == s2.flights[b]
  {
    hide Lines;
    hide Apply;
    hide Follow;
    DrainMoves(s2, t2, r, a, k);
    assert a in t2.spans && SpanIn(Observed(s2, k), t2.dropped, sa);
    hide TrackInv;
    hide Holds;
    assert t2.spans - {a} == map[b := sb];
  }

  /** The second, `arrived` having come since. */
  lemma {:induction false} SecondDrains(s3: Sys, t3: Track, s4: Sys, t4: Track, r: Resolver, b: nat, sb: Span, bb: int,
                                        arrived: seq<Line>, k: StreamKey)
    requires t3.spans == map[b := sb] && bb >= 0 && b in s3.flights && !s3.flights[b].Advancing?
    requires k in s3.flights[b].attempts && s3.flights[b].attempts[k].bytes == bb
    requires Passed(s3, t3, s4, t4, arrived, k) && TrackInv(s4, t4, k) && Enabled(s4, DrainNow(b))
    ensures var s5, t5 := Apply(s4, r, DrainNow(b)), Follow(t4, s4, DrainNow(b), k);
            && Observed(s5, k) == Observed(s3, k) + arrived
            && t5.dropped == Min(t3.dropped + Size(sb), |Observed(s5, k)|)
            && LiveAt(s5.memory, k).bytes == LiveAt(s3.memory, k).bytes + Bytes(arrived) - bb
            && sb in t5.carried && (forall c :: c in t3.carried ==> c in t5.carried)
            && (forall c :: c in t5.carried ==> c in t3.carried || c == sb)
            && t5.spans == map[]
  {
    hide Bytes;
    assert b in t3.spans;
    DrainMoves(s4, t4, r, b, k);
    assert t4.spans - {b} == map[];
  }

  /** The whole schedule: what was dropped, carried and counted in the end. */
  lemma {:induction false} AfterSchedule(
    s0: Sys, t0: Track, r: Resolver, p: nat, q: nat, x: seq<Event>, a: nat, y: seq<Event>, b: nat, k: StreamKey)
    requires TrackInv(s0, t0, k) && SerialTrack(s0, t0) && Holds(s0, p, k) && p in t0.spans
    requires forall i, j :: i in s0.flights && j in s0.flights ==> i == j
    requires s0.flights[p].attempts[k].bytes >= 0 && LiveAt(s0.memory, k).bytes >= 0
    requires Exec(s0, r, Schedule(q, x, a, y, b)).Some? && AllPassive(x) && AllPassive(y)
    requires (a == p && b == q) || (a == q && b == p)
    ensures var s5, t5 := Exec(s0, r, Schedule(q, x, a, y, b)).value, Trace(s0, r, t0, Schedule(q, x, a, y, b), k);
            var obs, d := Observed(s0, k), t0.dropped;
            var sp, sq := t0.spans[p], Span(d, |obs|);
            && sp.from == d < sp.to <= |obs| && TrackInv(s5, t5, k)
            && Observed(s5, k) == obs + (History(x, k) + History(y, k))
            && t5.dropped == Min(sp.to + (|obs| - d), |Observed(s5, k)|)
            && sp in t5.carried && sq in t5.carried
            && (forall c :: c in t0.carried ==> c in t5.carried)
            && (forall c :: c in t5.carried ==> c in t0.carried || c == sp || c == sq)
            && t5.spans == map[]
            && LiveAt(s5.memory, k).bytes == LiveAt(s0.memory, k).bytes + Bytes(History(x, k)) + Bytes(History(y, k))
                                             - s0.flights[p].attempts[k].bytes - LiveAt(s0.memory, k).bytes
  {
    hide TrackInv;
    hide SerialTrack;
    hide Exec;
    hide Trace;
    hide Apply;
    hide Follow;
    hide Enabled;
    hide Bytes;
    hide History;
    hide Passed;
    hide Passive;
    var s2, t2, s4, t4 := ScheduleStates(s0, t0, r, q, x, a, y, b, k);
    var s1, t1 := Apply(s0, r, Begin(q)), Follow(t0, s0, Begin(q), k);
    var s3, t3 := Apply(s2, r, DrainNow(a)), Follow(t2, s2, DrainNow(a), k);
    var sp, sq := t0.spans[p], Span(t0.dropped, |Observed(s0, k)|);
    var pb, qb := s0.flights[p].attempts[k].bytes, LiveAt(s0.memory, k).bytes;
    BothHold(s0, t0, r, p, q, k);
    PassiveRun(s1, t1, r, x, k);
    BothPass(s1, t1, s2, t2, p, q, sp, sq, pb, qb, History(x, k), k);
    PassedObserves(s1, t1, s2, t2, History(x, k), k);
    PassiveRun(s3, t3, r, y, k);
    StepTracks(s4, t4, r, DrainNow(b), k);
    if a == p {
      FirstDrains(s2, t2, r, a, b, sp, sq, pb, qb, k);
      SecondDrains(s3, t3, s4, t4, r, b, sq, qb, History(y, k), k);
    } else {
      FirstDrains(s2, t2, r, a, b, sq, sp, qb, pb, k);
      SecondDrains(s3, t3, s4, t4, r, b, sp, pb, History(y, k), k);
    }
    assert Observed(s0, k) + History(x, k) + History(y, k) == Observed(s0, k) + (History(x, k) + History(y, k));
  }

  lemma {:induction false} PassedObserves(s: Sys, t: Track, s': Sys, t': Track, arrived: seq<Line>, k: StreamKey)
    requires Passed(s, t, s', t', arrived, k)
    ensures Observed(s', k) == Observed(s, k) + arrived && t'.dropped == t.dropped && t'.spans == t.spans
    ensures LiveAt(s'.memory, k).bytes == LiveAt(s.memory, k).bytes + Bytes(arrived)
    ensures forall c :: c in t.carried ==> c in t'.carried
  {
  }

  lemma {:induction false} SpansOfFlights(s: Sys, t: Track, p: nat, k: StreamKey)
    requires TrackInv(s, t, k) && SerialTrack(s, t) && p in t.spans
    ensures t.spans[p].from == t.dropped && t.spans[p].to <= |Observed(s, k)|
  {
    assert SpanIn(Observed(s, k), t.dropped, t.spans[p]);
  }

  /** The byte counts of a serial run with a flight under way. */
  lemma {:induction false} SerialBytes(start: Cursors, r: Resolver, es: seq<Event>, p: nat, k: StreamKey)
    requires DistinctPaths(r) && Exec(Start(start), r, es).Some? && Serial(Start(start), r, es)
    requires Holds(Exec(Start(start), r, es).value, p, k)
    ensures var s, t := Exec(Start(start), r, es).value, Trace(Start(start), r, UNTRACKED, es, k);
            var obs := Observed(s, k);
            && p in t.spans && t.spans[p].from == t.dropped < t.spans[p].to <= |obs|
            && s.flights[p].attempts[k].bytes == Bytes(obs[..t.spans[p].to]) - Bytes(obs[..t.dropped]) >= 0
            && LiveAt(s.memory, k).bytes == Bytes(obs) - Bytes(obs[..t.dropped]) >= 0
            && (forall i, j :: i in s.flights && j in s.flights ==> i == j)
            && TrackInv(s, t, k) && SerialTrack(s, t)
  {
    SerialRunInv(start, r, es);
    SerialRunTracks(start, r, es, k);
    hide TrackInv;
    hide SerialTrack;
    hide Exec;
    hide Serial;
    hide Trace;
    hide Bytes;
    SerialBytesAt(Exec(Start(start), r, es).value, Trace(Start(start), r, UNTRACKED, es, k), r, start, p, k);
  }

  lemma {:induction false} ViewOf(s: Sys, r: Resolver, start: Cursors, p: nat, k: StreamKey)
    requires Inv(s, r, start) && Holds(s, p, k)
    ensures var c := View(s, r, start, Some(s.flights[p]), k);
            && ChanInv(c) && c.obs == Observed(s, k) && c.live == LiveAt(s.memory, k)
            && (c.stage.Sent? || c.stage.Accepted?) && c.stage.a == s.flights[p].attempts[k]
  {
    hide ChanInv;
    OneFlight(s, r, start);
    CurrentIs(s, p);
  }

  lemma {:induction false} SerialBytesAt(s: Sys, t: Track, r: Resolver, start: Cursors, p: nat, k: StreamKey)
    requires Inv(s, r, start) && TrackInv(s, t, k) && SerialTrack(s, t) && Holds(s, p, k)
    ensures var obs := Observed(s, k);
            && p in t.spans && t.spans[p].from == t.dropped < t.spans[p].to <= |obs|
            && s.flights[p].attempts[k].bytes == Bytes(obs[..t.spans[p].to]) - Bytes(obs[..t.dropped]) >= 0
            && LiveAt(s.memory, k).bytes == Bytes(obs) - Bytes(obs[..t.dropped]) >= 0
            && (forall i, j :: i in s.flights && j in s.flights ==> i == j)
  {
    hide Inv;
    hide ChanInv;
    hide View;
    hide Bytes;
    hide Lines;
    assert p in t.spans && Spanned(Observed(s, k), t, s.flights[p], t.spans[p], k);
    SpansOfFlights(s, t, p, k);
    OneFlight(s, r, start);
    ViewOf(s, r, start, p, k);
    LinesLength(Observed(s, k));
    ChanBytes(View(s, r, start, Some(s.flights[p]), k), t.dropped, t.spans[p].to);
  }

  /** The byte counts of one stream, where its span begins and ends being known. */
  lemma {:induction false} ChanBytes(c: Chan, d: nat, to: nat)
    requires ChanInv(c) && (c.stage.Sent? || c.stage.Accepted?) && d < to <= |c.obs|
    requires |c.live.entries| == |c.obs| - d && |c.stage.a.entries| == to - d
    ensures c.stage.a.bytes == Bytes(c.obs[..to]) - Bytes(c.obs[..d]) >= 0
    ensures c.live.bytes == Bytes(c.obs) - Bytes(c.obs[..d]) >= 0
  {
    LinesLength(c.obs);
    assert Drained(c) == d;
    hide Bytes;
    hide Lines;
    BytesPrefix(c.obs, d, to);
    BytesPrefix(c.obs, d, |c.obs|);
    assert c.obs[..|c.obs|] == c.obs;
  }

  lemma {:induction false} SameCover(a: seq<Span>, b: seq<Span>, i: nat)
    requires forall c :: c in a ==> c in b
    ensures Covers(a, i) ==> Covers(b, i)
  {
    if Covers(a, i) {
      var j :| 0 <= j < |a| && a[j].from <= i < a[j].to;
      assert a[j] in b;
      var m :| 0 <= m < |b| && b[m] == a[j];
    }
  }

  /** What accepted pushes have carried after the schedule: just what was observed before the second
      snapshot. */
  lemma {:induction false} CarriedUpToSecondSnapshot(t0: Track, t: Track, s0: Sys, p: nat, n: nat)
    requires SerialTrack(s0, t0) && p in t0.spans && t0.dropped <= n
    requires forall id: nat :: id in t0.spans ==> id == p
    requires t0.spans[p].from == t0.dropped && t0.spans[p].to <= n
    requires Span(t0.dropped, n) in t.carried && forall c :: c in t0.carried ==> c in t.carried
    requires forall c :: c in t.carried ==> c in t0.carried || c == t0.spans[p] || c == Span(t0.dropped, n)
    ensures forall i: nat :: Covers(t.carried, i) <==> i < n
  {
    forall c | c in t.carried ensures c.to <= n {
      if c in t0.carried && c.to > t0.dropped {
        var id: nat :| id in t0.spans && id in s0.flights && s0.flights[id].Delivered? && t0.spans[id] == c;
      }
    }
    forall i: nat ensures Covers(t.carried, i) <==> i < n {
      if i < t0.dropped {
        assert Covers(t0.carried, i);
        SameCover(t0.carried, t.carried, i);
      } else if i < n {
        var m :| 0 <= m < |t.carried| && t.carried[m] == Span(t0.dropped, n);
      }
    }
  }

  /** A serial run, and then a second flush that begins while one still holds the stream. Both are
      accepted and both drain, in either order, lines arriving anywhere. Lines of the stream are lost if
      and only if one arrived between the second snapshot and the second drain; the lines lost are
      those from there on that were dropped. */
  lemma {:induction false} OverlapLosesIffLineArrived(
    start: Cursors, r: Resolver, es: seq<Event>, p: nat, q: nat, x: seq<Event>, a: nat, y: seq<Event>, b: nat, k: StreamKey)
    requires DistinctPaths(r) && Exec(Start(start), r, es).Some? && Serial(Start(start), r, es)
    requires Holds(Exec(Start(start), r, es).value, p, k)
    requires Exec(Start(start), r, es + Schedule(q, x, a, y, b)).Some? && AllPassive(x) && AllPassive(y)
    requires (a == p && b == q) || (a == q && b == p)
    ensures var t := Trace(Start(start), r, UNTRACKED, es + Schedule(q, x, a, y, b), k);
            var n := |Observed(Exec(Start(start), r, es).value, k)|;
            && (NothingLost(t) <==> History(x, k) + History(y, k) == [])
            && forall i: nat :: i < t.dropped && !Covers(t.carried, i) <==> n <= i < t.dropped
  {
    var s0, t0 := Exec(Start(start), r, es).value, Trace(Start(start), r, UNTRACKED, es, k);
    SerialBytes(start, r, es, p, k);
    ExecSplit(Start(start), r, es, Schedule(q, x, a, y, b));
    TraceSplit(Start(start), r, UNTRACKED, es, Schedule(q, x, a, y, b), k);
    OnlySpan(s0, t0, p, k);
    hide TrackInv;
    hide Exec;
    hide Trace;
    hide Schedule;
    hide Serial;
    hide Bytes;
    hide Passive;
    hide SerialTrack;
    AfterSchedule(s0, t0, r, p, q, x, a, y, b, k);
    var t := Trace(s0, r, t0, Schedule(q, x, a, y, b), k);
    CarriedUpToSecondSnapshot(t0, t, s0, p, |Observed(s0, k)|);
    hide Covers;
    assert NothingLost(t) <==> t.dropped <= |Observed(s0, k)| by {
      assert t.dropped > 0 ==> (Covers(t.carried, t.dropped - 1) <==> t.dropped - 1 < |Observed(s0, k)|);
    }
  }

  lemma {:induction false} OnlySpan(s: Sys, t: Track, p: nat, k: StreamKey)
    requires TrackInv(s, t, k) && Holds(s, p, k) && forall i, j :: i in s.flights && j in s.flights ==> i == j
    ensures forall id: nat :: id in t.spans ==> id == p
  {
    assert forall id: nat :: id in t.spans ==> Holds(s, id, k);
  }

  /** The run of `OverlappingFlushesLoseALine` is such a schedule, and loses its line by that condition. */
  lemma {:induction false} WitnessIsASchedule(k: StreamKey, a: Line, b: Line)
    requires a.entry != b.entry
    ensures var es, x := [Observe(k, a), Begin(1)], [PushOk(1), PushOk(2), Observe(k, b)];
            var s0 := Start(map[]);
            && Exec(s0, map[], es).Some? && Serial(s0, map[], es) && Holds(Exec(s0, map[], es).value, 1, k)
            && Exec(s0, map[], es + Schedule(2, x, 1, [], 2)).Some? && AllPassive(x)
            && !NothingLost(Trace(s0, map[], UNTRACKED, es + Schedule(2, x, 1, [], 2), k))
  {
    var es, x := [Observe(k, a), Begin(1)], [PushOk(1), PushOk(2), Observe(k, b)];
    FirstHolds(k, a);
    OverlappingFlushesLoseALine(k, a, b);
    WitnessEvents(k, a, b);
    hide Exec;
    hide Serial;
    hide Trace;
    hide NothingLost;
    hide Holds;
    hide Schedule;
    hide History;
    OverlapLosesIffLineArrived(map[], map[], es, 1, 2, x, 1, [], 2, k);
  }

  lemma {:induction false} WitnessEvents(k: StreamKey, a: Line, b: Line)
    ensures var x := [PushOk(1), PushOk(2), Observe(k, b)];
            && [Observe(k, a), Begin(1)] + Schedule(2, x, 1, [], 2) ==
               [Observe(k, a), Begin(1), Begin(2), PushOk(1), PushOk(2), Observe(k, b), DrainNow(1), DrainNow(2)]
            && AllPassive(x) && History(x, k) + History([], k) != []
  {
    var x := [PushOk(1), PushOk(2), Observe(k, b)];
    assert x[..2] + [Observe(k, b)] == x;
    assert History(x, k) == History(x[..2], k) + [b];
  }

  lemma {:induction false} FirstHolds(k: StreamKey, a: Line)
    ensures var s0, es := Start(map[]), [Observe(k, a), Begin(1)];
            Exec(s0, map[], es).Some? && Serial(s0, map[], es) && Holds(Exec(s0, map[], es).value, 1, k)
  {
    var s0, r: Resolver := Start(map[]), map[];
    assert Exec(s0, r, []) == Some(s0) && Serial(s0, r, []);
    hide Exec;
    hide Serial;
    ExecStep(s0, r, [], Observe(k, a));
    assert [] + [Observe(k, a)] == [Observe(k, a)];
    var s1 := Apply(s0, r, Observe(k, a));
    assert k in s1.memory && s1.memory[k].entries != [];
    ExecStep(s0, r, [Observe(k, a)], Begin(1));
    assert [Observe(k, a)] + [Begin(1)] == [Observe(k, a), Begin(1)];
    SnapshotAt(s1.memory, k);
    hide TakeSnapshot;
    assert TakeSnapshot(s1.memory) != map[];
  }
}
